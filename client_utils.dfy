/**
 * The browser-side helpers the plugin's pages share: the numeric position of a box slot
 * label such as "B7", the group names a name pattern declares, the message shown when a
 * date-time field must come after another one, and the two display conversions that
 * message and the tables use.
 *
 * luxon's date re-formatting and its rendering of a number of minutes as words are
 * parameters, and so is the configured slot-label regular expression. A JavaScript value
 * is modelled by the kinds these helpers tell apart.
 */
module ClientUtils {
  import opened Wrappers
  import Php
  import NamePatterns

  /** A JavaScript value, as far as these helpers look into it; numbers are whole. */
  datatype JsVal = Undefined | Null | Bool(b: bool) | Num(n: int) | Str(s: string) | Obj(props: seq<(string, JsVal)>)

  /** `isEmpty` of the UI utilities: null, undefined, the empty string, or an object without keys. */
  predicate IsEmptyVal(v: JsVal) {
    v.Undefined? || v.Null? || v == Str("") || v == Obj([])
  }

  /** A property read `v[k]`: the first property named `k` of an object, and undefined otherwise. */
  function Prop(v: JsVal, k: string): (r: JsVal)
    ensures !v.Obj? ==> r == Undefined
  {
    if v.Obj? then Lookup(v.props, k) else Undefined
  }

  function Lookup(props: seq<(string, JsVal)>, k: string): (r: JsVal)
    ensures (forall i :: 0 <= i < |props| ==> props[i].0 != k) ==> r == Undefined
    ensures r != Undefined ==> (k, r) in props
    decreases |props|
  {
    if props == [] then Undefined
    else if props[0].0 == k then props[0].1
    else
      var r := Lookup(props[1..], k);
      assert (forall i :: 0 <= i < |props| ==> props[i].0 != k) ==> forall i :: 0 <= i < |props[1..]| ==> props[1..][i].0 != k by {
        if forall i :: 0 <= i < |props| ==> props[i].0 != k {
          forall i | 0 <= i < |props[1..]| ensures props[1..][i].0 != k { assert props[1..][i] == props[i + 1]; }
        }
      }
      r
  }

  /** The text a template literal `${v}` gives. */
  function Text(v: JsVal): string {
    match v
    case Undefined => "undefined"
    case Null => "null"
    case Bool(b) => if b then "true" else "false"
    case Num(n) => Php.IntToString(n)
    case Str(s) => s
    case Obj(_) => "[object Object]"
  }

  // ---------------------------------------------------------------- numbers from text

  /** The text with the whitespace `Number()` and `parseInt()` skip removed at both ends. */
  function TrimNumber(s: string): string {
    Php.DropTrailing(Php.DropLeading(s, Php.IsNumericSpace), Php.IsNumericSpace)
  }

  /** An optional sign followed by at least one decimal digit. */
  predicate SignedDigits(s: string) {
    var d := if |s| > 0 && (s[0] == '+' || s[0] == '-') then s[1..] else s;
    Php.CtypeDigit(d)
  }

  function SignedValue(s: string): int
    requires SignedDigits(s)
  {
    if s[0] == '-' then -(Php.DigitsValue(s[1..]) as int)
    else if s[0] == '+' then Php.DigitsValue(s[1..]) as int
    else Php.DigitsValue(s) as int
  }

  /** `Number(s)` for whole-number text: blank text is 0; anything else is NaN (None). */
  function TextNumber(s: string): (r: Option<int>)
    ensures r.Some? <==> TrimNumber(s) == "" || SignedDigits(TrimNumber(s))
  {
    var u := TrimNumber(s);
    if u == "" then Some(0) else if SignedDigits(u) then Some(SignedValue(u)) else None
  }

  /** `isNumber` of the UI utilities: not empty, and `isNaN` is false for it. */
  predicate IsNumber(v: JsVal): (b: bool)
    ensures v.Undefined? || v.Null? || v.Obj? ==> !b
    ensures v.Num? || v.Bool? ==> b
    // non-empty text is a number when, trimmed, it is blank or a signed whole number
    ensures v.Str? ==> (b <==> v.s != "" && (TrimNumber(v.s) == "" || SignedDigits(TrimNumber(v.s))))
  {
    && !IsEmptyVal(v)
    && match v
       case Num(_) => true
       case Bool(_) => true
       case Str(s) => TextNumber(s).Some?
       case _ => false
  }

  /** `parseInt(v)`: the whole number its text starts with, None when that is NaN. */
  function ParseInt(v: JsVal): (r: Option<int>)
    ensures v.Num? ==> r == Some(v.n)
    ensures v.Str? && SignedDigits(TrimNumber(v.s)) ==> r == Some(SignedValue(TrimNumber(v.s)))
  {
    match v
    case Num(n) => Some(n)
    case Str(s) => if SignedDigits(TrimNumber(s)) then Some(SignedValue(TrimNumber(s))) else None
    case _ => None
  }

  // ---------------------------------------------------------------- display conversions

  /** luxon: a date string re-formatted from one format to another. */
  type Reformat = (string, string, string) -> string

  const DateFormat := "yyyy-MM-dd"
  const DateTimeFormat := "yyyy-MM-dd HH:mm"

  /** The REDCap validation types `formatDate` knows, with the format it reads and the one it writes. */
  function DisplayFormats(format: string): Option<(string, string)> {
    if format == "date_dmy" then Some((DateFormat, "dd-MM-yyyy"))
    else if format == "date_mdy" then Some((DateFormat, "MM-dd-yyyy"))
    else if format == "date_ymd" then Some((DateFormat, "yyyy-MM-dd"))
    else if format == "datetime_dmy" then Some((DateTimeFormat, "dd-MM-yyyy HH:mm"))
    else if format == "datetime_mdy" then Some((DateTimeFormat, "MM-dd-yyyy HH:mm"))
    else if format == "datetime_ymd" then Some((DateTimeFormat, "yyyy-MM-dd HH:mm"))
    else None
  }

  /** `formatDate`: a stored date shown in a field's display format; other formats leave it as it is. */
  function FormatDate(reformat: Reformat, date: string, format: string): (r: string)
    ensures DisplayFormats(format).None? ==> r == date
    ensures DisplayFormats(format).Some? ==>
      r == reformat(date, DisplayFormats(format).value.0, DisplayFormats(format).value.1)
  {
    match DisplayFormats(format)
    case None => date
    case Some((from, to)) => reformat(date, from, to)
  }

  /** The six display formats read the stored form: dates without a time, date-times with one. */
  lemma DisplayFormatsRead(format: string)
    requires DisplayFormats(format).Some?
    ensures DisplayFormats(format).value.0 == (if format[..4] == "date" && format[4] == '_' then DateFormat else DateTimeFormat)
    ensures |DisplayFormats(format).value.1| == |DisplayFormats(format).value.0|
  {
  }

  /** luxon: a number of minutes rescaled to the largest units and spelled out in words. */
  type Humanize = int -> string

  /** The error luxon raises for a duration of NaN minutes. */
  const InvalidMinutes := "Invalid unit value NaN"

  /** `minutesToHuman`: numbers of minutes in words; anything that is not a number as it is. */
  function MinutesToHuman(human: Humanize, t: JsVal): (r: Result<JsVal>)
    ensures !IsNumber(t) ==> r == Ok(t)
    ensures IsNumber(t) && ParseInt(t).Some? ==> r == Ok(Str(human(ParseInt(t).value)))
    ensures r.Err? <==> IsNumber(t) && ParseInt(t).None?
  {
    if IsNumber(t) then
      match ParseInt(t)
      case Some(m) => Ok(Str(human(m)))
      case None => Err([InvalidMinutes])
    else Ok(t)
  }

  // ---------------------------------------------------------------- the after-date-time message

  /** The name shown for a field in the message: the field, or "placeholder" when it is empty. */
  function Subject(v: JsVal): (s: string)
    ensures IsEmptyVal(v) ==> s == "placeholder"
    ensures !IsEmptyVal(v) ==> s == Text(v)
  {
    if IsEmptyVal(v) then "placeholder" else Text(v)
  }

  /** The message text around its time phrase. */
  function Message(d1: string, time: string, d2: string): string {
    d1 + " must be " + time + "after " + d2
  }

  /** The time phrase, from the minimum and maximum as shown and the raw maximum. */
  function TimePhrase(t1: JsVal, t2: JsVal, maximum: JsVal): string {
    if !IsEmptyVal(t1) && !IsEmptyVal(t2) then "between " + Text(t1) + " and " + Text(t2) + " "
    else if !IsEmptyVal(t1) then "a minimum " + Text(t1) + " "
    else if !IsEmptyVal(maximum) then "a maximum " + Text(t2) + " "
    else ""
  }

  /**
   * `afterDateTimeErrorMessage`: "<field> must be <time>after <target>", the time phrase
   * coming from the `minimum` and `maximum` extras; luxon's error for a NaN count of minutes
   * propagates.
   */
  function AfterDateTimeErrorMessage(human: Humanize, field: JsVal, target: JsVal, extras: JsVal): (r: Result<string>)
    // the message fails exactly when a bound passes `isNumber` but `parseInt` finds no number in it
    ensures r.Err? <==>
      && !IsEmptyVal(extras)
      && ((IsNumber(Prop(extras, "minimum")) && ParseInt(Prop(extras, "minimum")).None?)
          || (IsNumber(Prop(extras, "maximum")) && ParseInt(Prop(extras, "maximum")).None?))
  {
    match ExtrasPhrase(human, extras)
    case Err(e) => Err(e)
    case Ok(time) => Ok(Message(Subject(field), time, Subject(target)))
  }

  /** The time phrase of the extras: none without extras, else from their `minimum` and `maximum`. */
  function ExtrasPhrase(human: Humanize, extras: JsVal): Result<string> {
    if IsEmptyVal(extras) then Ok("")
    else
      match MinutesToHuman(human, Prop(extras, "minimum"))
      case Err(e) => Err(e)
      case Ok(t1) =>
        match MinutesToHuman(human, Prop(extras, "maximum"))
        case Err(e) => Err(e)
        case Ok(t2) => Ok(TimePhrase(t1, t2, Prop(extras, "maximum")))
  }

  /** The message always reads "<field> must be <time>after <target>", with "placeholder" for an empty field. */
  lemma MessageShape(human: Humanize, field: JsVal, target: JsVal, extras: JsVal)
    requires AfterDateTimeErrorMessage(human, field, target, extras).Ok?
    ensures var m := AfterDateTimeErrorMessage(human, field, target, extras).value;
      var head := Subject(field) + " must be ";
      var tail := "after " + Subject(target);
      && |head| + |tail| <= |m|
      && m[..|head|] == head
      && m[|m| - |tail|..] == tail
  {
    var time := ExtrasPhrase(human, extras).value;
    assert AfterDateTimeErrorMessage(human, field, target, extras).value == Message(Subject(field), time, Subject(target));
    MessageParts(Subject(field), time, Subject(target));
  }

  lemma MessageParts(d1: string, time: string, d2: string)
    ensures var m := Message(d1, time, d2);
      && |d1 + " must be "| + |"after " + d2| <= |m|
      && m[..|d1 + " must be "|] == d1 + " must be "
      && m[|m| - |"after " + d2|..] == "after " + d2
  {
    var head := d1 + " must be ";
    var tail := "after " + d2;
    var m := Message(d1, time, d2);
    assert m == head + time + tail;
    assert m[..|head|] == head;
    assert m[|m| - |tail|..] == tail;
  }

  /** Without extras, or with neither bound, there is no time phrase. */
  lemma NoTimePhrase(human: Humanize, extras: JsVal)
    requires IsEmptyVal(extras) || (IsEmptyVal(Prop(extras, "minimum")) && IsEmptyVal(Prop(extras, "maximum")))
    ensures ExtrasPhrase(human, extras) == Ok("")
  {
  }

  /** With both bounds given as numbers of minutes, the phrase names the range in words. */
  lemma BetweenPhrase(human: Humanize, extras: JsVal, min: int, max: int)
    requires Prop(extras, "minimum") == Num(min) && Prop(extras, "maximum") == Num(max)
    requires human(min) != "" && human(max) != ""
    ensures ExtrasPhrase(human, extras) == Ok("between " + human(min) + " and " + human(max) + " ")
  {
  }

  /** With only a minimum, the phrase names it. */
  lemma MinimumPhrase(human: Humanize, extras: JsVal, min: int)
    requires Prop(extras, "minimum") == Num(min) && IsEmptyVal(Prop(extras, "maximum")) && human(min) != ""
    ensures ExtrasPhrase(human, extras) == Ok("a minimum " + human(min) + " ")
  {
  }

  /**
   * With only a maximum, the phrase names it. The branch tests the raw maximum rather than its
   * words, so a maximum whose words are empty still gives "a maximum " and an empty time.
   */
  lemma MaximumPhrase(human: Humanize, extras: JsVal, max: int)
    requires IsEmptyVal(Prop(extras, "minimum")) && Prop(extras, "maximum") == Num(max)
    ensures ExtrasPhrase(human, extras) == Ok("a maximum " + human(max) + " ")
  {
  }

  /** A bound that is text but not a number is shown as it is. */
  lemma TextBoundShown(human: Humanize, extras: JsVal, min: string)
    requires Prop(extras, "minimum") == Str(min) && min != "" && TextNumber(min).None?
    requires IsEmptyVal(Prop(extras, "maximum"))
    ensures ExtrasPhrase(human, extras) == Ok("a minimum " + min + " ")
  {
  }

  // ---------------------------------------------------------------- box slot positions

  /** The `row` and `col` groups of the slot-label regex's match, or None when `exec` finds none. */
  type SlotExec = string -> Option<(string, string)>

  /** The result of a numeric slot position: a number, or NaN when the column text is not numeric. */
  datatype Position = At(n: int) | NotANumber

  /** The error reading `groups` of a failed match raises. */
  const NoMatch := "Cannot read properties of null (reading 'groups')"

  /** The offset of the slot's row: one letter counts from 'A', two letters continue after 'Z'. */
  function RowOffset(row: string, cols: int): int {
    if |row| == 1 then (row[0] as int - 65) * cols
    else if |row| == 2 then (row[0] as int - 64) * 26 * cols + (row[1] as int - 65) * cols
    else 0
  }

  /** `toNumericBoxPosition`: the slot's 1-based number, counting row by row. */
  function ToNumericBoxPosition(exec: SlotExec, pos: string, cols: int): (r: Result<Position>)
    // a label the regex does not match throws; a non-numeric column gives NaN
    ensures r.Err? <==> exec(pos).None?
    ensures r == Ok(NotANumber) <==> exec(pos).Some? && TextNumber(exec(pos).value.1).None?
  {
    match exec(pos)
    case None => Err([NoMatch])
    case Some((row, col)) =>
      match TextNumber(col)
      case None => Ok(NotANumber)
      case Some(c) => Ok(At(RowOffset(row, cols) + c))
  }

  predicate Upper(c: char) {
    'A' <= c <= 'Z'
  }

  /** A row label: one or two capital letters. */
  predicate RowLabel(row: string) {
    (|row| == 1 || |row| == 2) && forall i :: 0 <= i < |row| ==> Upper(row[i])
  }

  /** The 0-based index of a row label: A..Z are 0..25, AA..AZ 26..51, and so on up to ZZ at 701. */
  function RowIndex(row: string): (i: nat)
    requires RowLabel(row)
    ensures i < 702
  {
    if |row| == 1 then row[0] as int - 65 else (row[0] as int - 64) * 26 + (row[1] as int - 65)
  }

  /** The label of the row with 0-based index `i`. */
  function RowName(i: nat): (row: string)
    requires i < 702
    ensures RowLabel(row)
  {
    if i < 26 then [(65 + i) as char] else [(64 + i / 26) as char, (65 + i % 26) as char]
  }

  /** Row labels and row indexes correspond one to one. */
  lemma RowNameIndex(i: nat)
    requires i < 702
    ensures RowIndex(RowName(i)) == i
  {
  }

  lemma RowIndexName(row: string)
    requires RowLabel(row)
    ensures RowName(RowIndex(row)) == row
  {
    if |row| == 2 {
      var i := RowIndex(row);
      assert i / 26 == row[0] as int - 64 && i % 26 == row[1] as int - 65;
    }
  }

  /** A row label's offset is its index times the row length, so AA follows Z's row. */
  lemma RowOffsetIndex(row: string, cols: int)
    requires RowLabel(row)
    ensures RowOffset(row, cols) == RowIndex(row) * cols
  {
    if |row| == 2 {
      calc {
        RowOffset(row, cols);
        (row[0] as int - 64) * 26 * cols + (row[1] as int - 65) * cols;
        { MulAdd(row[0] as int - 64, row[1] as int - 65, cols); }
        ((row[0] as int - 64) * 26 + (row[1] as int - 65)) * cols;
      }
    }
  }

  lemma MulAdd(a: int, b: int, c: int)
    ensures a * 26 * c + b * c == (a * 26 + b) * c
  {
  }

  /** A matched label with a row label and a numeric column is at its row's index times the row length plus the column. */
  lemma SlotPosition(exec: SlotExec, pos: string, cols: int)
    requires exec(pos).Some? && RowLabel(exec(pos).value.0) && TextNumber(exec(pos).value.1).Some?
    ensures ToNumericBoxPosition(exec, pos, cols) ==
      Ok(At(RowIndex(exec(pos).value.0) * cols + TextNumber(exec(pos).value.1).value))
  {
    RowOffsetIndex(exec(pos).value.0, cols);
  }

  /** A label whose row has neither one nor two characters counts from the first row. */
  lemma LongRowIgnored(exec: SlotExec, pos: string, cols: int)
    requires exec(pos).Some? && |exec(pos).value.0| != 1 && |exec(pos).value.0| != 2
    requires TextNumber(exec(pos).value.1).Some?
    ensures ToNumericBoxPosition(exec, pos, cols) == Ok(At(TextNumber(exec(pos).value.1).value))
  {
  }

  /** Within a box, slots with columns 1..cols get distinct numbers, and the number gives back row and column. */
  lemma {:induction false} SlotPositionsDistinct(i: nat, c: int, i': nat, c': int, cols: int)
    requires 1 <= c <= cols && 1 <= c' <= cols
    requires i * cols + c == i' * cols + c'
    ensures i == i' && c == c'
  {
    if i < i' {
      assert (i + 1) * cols == i * cols + cols;
      MulMono(i + 1, i', cols);
    } else if i' < i {
      assert (i' + 1) * cols == i' * cols + cols;
      MulMono(i' + 1, i, cols);
    }
  }

  lemma MulMono(a: nat, b: nat, c: int)
    requires a <= b && c >= 0
    ensures a * c <= b * c
  {
  }

  // ---------------------------------------------------------------- group names of a pattern

  /** When `s` starts with "<name>", the position of its '>'. */
  function TokenEnd(s: string): (e: Option<nat>)
    ensures e.Some? ==> 2 <= e.value < |s| && s[0] == '<' && s[e.value] == '>'
  {
    if |s| > 0 && s[0] == '<' then
      match NamePatterns.NameEnd(s, 1)
      case Some(e) => if e > 1 then Some(e) else None
      case None => None
    else None
  }

  /** The names the global regex `<([a-zA-Z0-9_]+)>` captures in `s`, match by match, left to right. */
  function Groups(s: string): seq<string>
    decreases |s|
  {
    if s == [] then []
    else
      match TokenEnd(s)
      case Some(e) => [s[1..e]] + Groups(s[e + 1..])
      case None => Groups(s[1..])
  }

  /** A group name: one or more word characters. */
  predicate GroupName(n: string) {
    |n| > 0 && forall i :: 0 <= i < |n| ==> NamePatterns.WordChar(n[i])
  }

  /** `getRegExpGroups`: the captured names of a pattern, collected match by match; none for an empty one. */
  method GetRegExpGroups(rx: JsVal) returns (g: seq<string>)
    ensures g == if IsEmptyVal(rx) then [] else Groups(Text(rx))
  {
    g := [];
    if !IsEmptyVal(rx) {
      g := MatchAll(Text(rx));
    }
  }

  /** The loop over the matches of the global regex: each match's name, then the search goes on after it. */
  method MatchAll(s: string) returns (g: seq<string>)
    ensures g == Groups(s)
  {
    g := [];
    var rest := s;
    while rest != []
      invariant g + Groups(rest) == Groups(s)
      decreases |rest|
    {
      match TokenEnd(rest)
      case Some(e) =>
        g := g + [rest[1..e]];
        rest := rest[e + 1..];
      case None =>
        rest := rest[1..];
    }
  }

  /** Every name reported is a group name. */
  lemma {:induction false} GroupsAreNames(s: string)
    ensures forall n :: n in Groups(s) ==> GroupName(n)
    decreases |s|
  {
    if s != [] {
      match TokenEnd(s)
      case Some(e) =>
        GroupsAreNames(s[e + 1..]);
        NameEndWords(s, 1, e);
      case None =>
        GroupsAreNames(s[1..]);
    }
  }

  lemma NameEndWords(s: string, j: nat, e: nat)
    requires NamePatterns.NameEnd(s, j) == Some(e) && j < e
    ensures GroupName(s[j..e])
  {
  }

  /** Text without '<' holds no group. */
  lemma {:induction false} NoOpenSkipped(a: string, b: string)
    requires '<' !in a
    ensures Groups(a + b) == Groups(b)
    decreases |a|
  {
    if a != [] {
      assert (a + b)[0] == a[0];
      assert (a + b)[1..] == a[1..] + b;
      NoOpenSkipped(a[1..], b);
    } else {
      assert a + b == b;
    }
  }

  /** Word characters up to a '>' make that '>' the end of the name. */
  lemma {:induction false} NameEndAt(s: string, j: nat, e: nat)
    requires j <= e < |s| && s[e] == '>' && forall m :: j <= m < e ==> NamePatterns.WordChar(s[m])
    ensures NamePatterns.NameEnd(s, j) == Some(e)
    decreases e - j
  {
    if j < e {
      NameEndAt(s, j + 1, e);
    }
  }

  /** A named group "(?<n>" followed by text is reported as `n`, then what the text holds. */
  lemma GroupOpening(n: string, rest: string)
    requires GroupName(n)
    ensures Groups("(?<" + n + ">" + rest) == [n] + Groups(rest)
  {
    var t := "<" + n + ">" + rest;
    NamePatterns.OpenText(n, rest);
    NoOpenSkipped("(?", t);
    NameOpening(n, rest);
  }

  /** "<n>" followed by text is reported as `n`, then what the text holds. */
  lemma NameOpening(n: string, rest: string)
    requires GroupName(n)
    ensures Groups("<" + n + ">" + rest) == [n] + Groups(rest)
  {
    var t := "<" + n + ">" + rest;
    NameEndAt(t, 1, |n| + 1);
    assert TokenEnd(t) == Some(|n| + 1);
    assert t[1..|n| + 1] == n;
    assert t[|n| + 2..] == rest;
  }

  /** The group names of a pattern made of literals and named groups, in order. */
  function TokenNames(ts: seq<NamePatterns.Token>): seq<string>
    decreases |ts|
  {
    if ts == [] then []
    else (if ts[0].Group? then [ts[0].name] else []) + TokenNames(ts[1..])
  }

  /** Pieces whose literal text and group bodies hold no '<', and whose group names are names. */
  predicate PlainTokens(ts: seq<NamePatterns.Token>) {
    forall i :: 0 <= i < |ts| ==>
      match ts[i]
      case Lit(s) => '<' !in s
      case Group(n, b) => GroupName(n) && '<' !in b
  }

  /** For such a pattern, the names reported are exactly its groups' names. */
  lemma {:induction false} GroupsOfPattern(ts: seq<NamePatterns.Token>)
    requires PlainTokens(ts)
    ensures Groups(NamePatterns.Render(ts)) == TokenNames(ts)
    decreases |ts|
  {
    if ts != [] {
      var rest := NamePatterns.Render(ts[1..]);
      assert PlainTokens(ts[1..]) by {
        forall i | 0 <= i < |ts[1..]| ensures ts[1..][i] == ts[i + 1] {}
      }
      GroupsOfPattern(ts[1..]);
      assert NamePatterns.Render(ts) == NamePatterns.TokenText(ts[0]) + rest;
      TokenGroups(ts[0], rest);
    }
  }

  /** One piece of such a pattern contributes its group name, if it is a group. */
  lemma TokenGroups(t: NamePatterns.Token, rest: string)
    requires PlainTokens([t])
    ensures Groups(NamePatterns.TokenText(t) + rest) == (if t.Group? then [t.name] else []) + Groups(rest)
  {
    assert [t][0] == t;
    match t
    case Lit(s) =>
      NoOpenSkipped(s, rest);
    case Group(n, b) =>
      assert '<' !in b + ")";
      NoOpenSkipped(b + ")", rest);
      NamePatterns.GroupTextAssoc(n, b, rest);
      GroupOpening(n, b + ")" + rest);
  }
}

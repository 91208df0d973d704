/**
 * The trigger-id grammar shared by the TCP handler and the USB device:
 * `getPrefixForControl`, `getTriggerId` and `parseTriggerId`.
 *
 * A control is named `<prefix><number>`: no prefix for a button, `Enc` for
 * an encoder, `LCD` for an LCD segment. A trigger string is that id, a run
 * of whitespace and an action name.
 */
module TriggerCodec {
  import opened Wrappers

  // ---------------------------------------------------------------------
  // Controls
  // ---------------------------------------------------------------------

  datatype Size = Size(width: nat, height: nat)

  /**
   * A control definition as the device library reports it. A button's
   * `lcdSize` is present exactly when its feedback type is `lcd`.
   */
  datatype ControlDef =
    | ButtonControl(index: nat, lcdSize: Option<Size>)
    | EncoderControl(index: nat)
    | LcdSegmentControl(id: nat, size: Size)

  /** The number that names a control: its index, or an LCD segment's id. */
  function ControlNumber(c: ControlDef): nat {
    match c
    case ButtonControl(i, _) => i
    case EncoderControl(i) => i
    case LcdSegmentControl(id, _) => id
  }

  function Prefix(c: ControlDef): string {
    match c
    case ButtonControl(_, _) => ""
    case EncoderControl(_) => "Enc"
    case LcdSegmentControl(_, _) => "LCD"
  }

  // ---------------------------------------------------------------------
  // Characters, digits, numbers
  // ---------------------------------------------------------------------

  /** The characters JavaScript's `\s` matches. */
  predicate IsSpace(c: char) {
    c == ' ' || c == '\t' || c == '\n' || c == '\r' || c == '\U{000B}' || c == '\U{000C}' ||
    c == '\U{00A0}' || c == '\U{1680}' || ('\U{2000}' <= c <= '\U{200A}') ||
    c == '\U{2028}' || c == '\U{2029}' || c == '\U{202F}' || c == '\U{205F}' ||
    c == '\U{3000}' || c == '\U{FEFF}'
  }

  predicate NoSpace(s: string) {
    forall i :: 0 <= i < |s| ==> !IsSpace(s[i])
  }

  /** The characters JavaScript's `\d` matches. */
  predicate IsDigit(c: char) {
    '0' <= c <= '9'
  }

  predicate IsDigits(s: string) {
    forall i :: 0 <= i < |s| ==> IsDigit(s[i])
  }

  /** The decimal value of a digit string; the empty string is 0. */
  function DigitsValue(s: string): nat
    requires IsDigits(s)
  {
    if s == [] then 0 else DigitsValue(s[..|s| - 1]) * 10 + (s[|s| - 1] as int - '0' as int)
  }

  /**
   * The decimal rendering of a non-negative integer, as JavaScript's `${n}`
   * gives it for n below 10^21 (from there on JavaScript uses exponent form).
   */
  function NatToString(n: nat): string {
    var d := ['0' + (n % 10) as char];
    if n < 10 then d else NatToString(n / 10) + d
  }

  /** The rendering is a digit string for `n`, without a leading zero. */
  lemma {:induction false} NatToStringDigits(n: nat)
    ensures var s := NatToString(n);
            |s| >= 1 && IsDigits(s) && DigitsValue(s) == n && (|s| > 1 ==> s[0] != '0')
  {
    if n >= 10 {
      NatToStringDigits(n / 10);
      var hi := NatToString(n / 10);
      var s := NatToString(n);
      assert s[..|s| - 1] == hi;
    }
  }

  /** A JavaScript number as produced by `Number(...)`, restricted to what the ids produce. */
  datatype JsNumber = Num(value: nat) | NaN

  /**
   * `Number(s)` for a whitespace-free string: a digit string (the empty
   * string included, which JavaScript reads as 0) is its decimal value;
   * every other string is taken as NaN.
   */
  function ToNumber(s: string): (r: JsNumber)
    ensures r.Num? <==> IsDigits(s)
    ensures s == "" ==> r == Num(0)
  {
    if IsDigits(s) then Num(DigitsValue(s)) else NaN
  }

  // ---------------------------------------------------------------------
  // Encoding
  // ---------------------------------------------------------------------

  /** `getTriggerId`: the control's prefix followed by its number in decimal. */
  function TriggerId(c: ControlDef): string {
    Prefix(c) + NatToString(ControlNumber(c))
  }

  /** An id is its prefix, then the decimal digits of its number, and has no whitespace. */
  lemma TriggerIdShape(c: ControlDef)
    ensures var r := TriggerId(c);
            |r| > |Prefix(c)| && r[..|Prefix(c)|] == Prefix(c) &&
            IsDigits(r[|Prefix(c)|..]) && DigitsValue(r[|Prefix(c)|..]) == ControlNumber(c) &&
            NoSpace(r)
  {
    var p, digits := Prefix(c), NatToString(ControlNumber(c));
    NatToStringDigits(ControlNumber(c));
    assert (p + digits)[..|p|] == p;
    assert (p + digits)[|p|..] == digits;
    assert NoSpace(p) by {
      assert p == "" || p == "Enc" || p == "LCD";
    }
    assert NoSpace(digits) by {
      forall i | 0 <= i < |digits| ensures !IsSpace(digits[i]) {
        assert IsDigit(digits[i]);
      }
    }
    NoSpaceConcat(p, digits);
  }

  lemma NoSpaceConcat(a: string, b: string)
    requires NoSpace(a) && NoSpace(b)
    ensures NoSpace(a + b)
  {
    forall i | 0 <= i < |a + b| ensures !IsSpace((a + b)[i]) {
      if i < |a| { assert (a + b)[i] == a[i]; } else { assert (a + b)[i] == b[i - |a|]; }
    }
  }

  // ---------------------------------------------------------------------
  // Splitting on whitespace (`triggerId.split(/\s+/)`)
  // ---------------------------------------------------------------------

  /** The non-whitespace characters of `s`, in order. */
  function StripSpaces(s: string): string {
    if s == [] then [] else (if IsSpace(s[0]) then [] else [s[0]]) + StripSpaces(s[1..])
  }

  function Concat(words: seq<string>): string {
    if words == [] then [] else words[0] + Concat(words[1..])
  }

  /** The longest whitespace-free prefix of `s`. */
  function TakeWord(s: string): (w: string)
    ensures |w| <= |s| && w == s[..|w|] && NoSpace(w)
    ensures |w| < |s| ==> IsSpace(s[|w|])
  {
    if s == [] || IsSpace(s[0]) then []
    else
      var w := [s[0]] + TakeWord(s[1..]);
      assert s[1..][|w| - 1..] == s[|w|..];
      w
  }

  /** Taking a word loses no non-whitespace character. */
  lemma {:induction false} TakeWordStrip(s: string)
    ensures StripSpaces(s) == TakeWord(s) + StripSpaces(s[|TakeWord(s)|..])
  {
    if s == [] || IsSpace(s[0]) {
      assert TakeWord(s) == [];
      assert s[0..] == s;
    } else {
      var tail := TakeWord(s[1..]);
      var rest := StripSpaces(s[1..][|tail|..]);
      TakeWordStrip(s[1..]);
      assert s[1..][|tail|..] == s[|tail| + 1..];
      calc {
        StripSpaces(s);
        [s[0]] + StripSpaces(s[1..]);
        [s[0]] + (tail + rest);
        ([s[0]] + tail) + rest;
        TakeWord(s) + StripSpaces(s[|tail| + 1..]);
      }
    }
  }

  /** `s` with its leading whitespace removed. */
  function DropSpaces(s: string): (r: string)
    ensures |r| <= |s| && r == s[|s| - |r|..]
    ensures r != [] ==> !IsSpace(r[0])
    ensures s != [] && IsSpace(s[0]) ==> |r| < |s|
  {
    if s != [] && IsSpace(s[0]) then DropSpaces(s[1..]) else s
  }

  /** Dropping leading whitespace loses no non-whitespace character. */
  lemma {:induction false} DropSpacesStrip(s: string)
    ensures StripSpaces(DropSpaces(s)) == StripSpaces(s)
  {
    if s != [] && IsSpace(s[0]) {
      DropSpacesStrip(s[1..]);
    }
  }

  /**
   * The fields of `s` between maximal runs of whitespace, as JavaScript's
   * `split(/\s+/)` gives them: leading or trailing whitespace yields an
   * empty first or last field, and the empty string yields one empty field.
   */
  function Fields(s: string): (r: seq<string>)
    ensures |r| >= 1
    ensures forall i :: 0 <= i < |r| ==> NoSpace(r[i])
    decreases |s|
  {
    var w := TakeWord(s);
    if |w| == |s| then [w]
    else [w] + Fields(DropSpaces(s[|w|..]))
  }

  /** Splitting keeps every non-whitespace character, in order, and adds none. */
  lemma {:induction false} FieldsConcat(s: string)
    ensures Concat(Fields(s)) == StripSpaces(s)
    decreases |s|
  {
    var w := TakeWord(s);
    TakeWordStrip(s);
    if |w| == |s| {
      assert s[|w|..] == [];
      assert Concat([w]) == w + Concat([]);
    } else {
      var rest := DropSpaces(s[|w|..]);
      FieldsConcat(rest);
      DropSpacesStrip(s[|w|..]);
      assert Fields(s) == [w] + Fields(rest);
      assert ([w] + Fields(rest))[1..] == Fields(rest);
    }
  }

  lemma {:induction false} TakeWordWhole(w: string, rest: string)
    requires NoSpace(w) && (rest == [] || IsSpace(rest[0]))
    ensures TakeWord(w + rest) == w
  {
    if w != [] {
      assert (w + rest)[1..] == w[1..] + rest;
      TakeWordWhole(w[1..], rest);
    }
  }

  /** A whitespace-free string is a single field. */
  lemma FieldsOfWord(w: string)
    requires NoSpace(w)
    ensures Fields(w) == [w]
  {
    TakeWordWhole(w, []);
    assert w + [] == w;
  }

  /** One space before a whitespace-free word is skipped, and nothing more. */
  lemma DropOneSpace(a: string)
    requires NoSpace(a)
    ensures DropSpaces(" " + a) == a
  {
    assert (" " + a)[1..] == a;
    assert a == [] || !IsSpace(a[0]);
  }

  /** `"<w> <a>"` splits into exactly `w` and `a`. */
  lemma FieldsOfPair(w: string, a: string)
    requires NoSpace(w) && NoSpace(a)
    ensures Fields(w + " " + a) == [w, a]
  {
    var s := w + " " + a;
    assert s == w + (" " + a);
    TakeWordWhole(w, " " + a);
    assert s[|w|..] == " " + a;
    DropOneSpace(a);
    FieldsOfWord(a);
    assert Fields(s) == [w] + Fields(a);
  }

  /** A run of whitespace only. */
  predicate AllSpace(s: string) {
    forall i :: 0 <= i < |s| ==> IsSpace(s[i])
  }

  /** A whole run of whitespace is dropped, up to the next non-whitespace character. */
  lemma {:induction false} DropSpacesRun(sp: string, t: string)
    requires AllSpace(sp) && (t == [] || !IsSpace(t[0]))
    ensures DropSpaces(sp + t) == t
  {
    if sp != [] {
      assert (sp + t)[1..] == sp[1..] + t;
      DropSpacesRun(sp[1..], t);
    } else {
      assert sp + t == t;
    }
  }

  /**
   * Fields are separated at maximal whitespace runs: a word, a non-empty
   * run of whitespace, and then whatever starts with a non-whitespace
   * character (or nothing) split into that word and the fields of the rest.
   */
  lemma FieldsSplitAtRun(w: string, sp: string, t: string)
    requires NoSpace(w) && sp != [] && AllSpace(sp) && (t == [] || !IsSpace(t[0]))
    ensures Fields(w + sp + t) == [w] + Fields(t)
  {
    var s := w + sp + t;
    assert s == w + (sp + t);
    TakeWordWhole(w, sp + t);
    assert s[|w|..] == sp + t;
    DropSpacesRun(sp, t);
  }

  /** The first field of a string is its leading word. */
  lemma FirstField(s: string)
    ensures Fields(s)[0] == TakeWord(s)
  {
  }

  /**
   * The id is the first whitespace-separated token of a trigger and the
   * action the second, whatever whitespace separates them and whatever
   * further tokens follow; a trigger with no second token has action `''`.
   */
  lemma SplitTriggerTokens(w: string, sp: string, a: string, rest: string)
    requires NoSpace(w) && sp != [] && AllSpace(sp) && NoSpace(a)
    requires a != [] || rest == []
    requires rest == [] || IsSpace(rest[0])
    ensures SplitTrigger(w + sp + a + rest) == (w, a)
  {
    var t := a + rest;
    assert w + sp + a + rest == w + sp + t;
    assert t == [] || !IsSpace(t[0]) by {
      if a != [] { assert t[0] == a[0]; } else { assert t == []; }
    }
    FieldsSplitAtRun(w, sp, t);
    TakeWordWhole(a, rest);
    FirstField(t);
  }

  // ---------------------------------------------------------------------
  // Decoding
  // ---------------------------------------------------------------------

  /** The record `parseTriggerId` returns; `None` is `undefined`. */
  datatype ParsedTrigger = ParsedTrigger(
    id: string,
    key: Option<JsNumber>,
    encoder: Option<nat>,
    lcdSegment: Option<nat>,
    action: string)

  /** The id and the action: the first field, and the second or `''`. */
  function SplitTrigger(triggerId: string): (r: (string, string))
    ensures NoSpace(r.0) && NoSpace(r.1)
  {
    var fields := Fields(triggerId);
    (fields[0], if |fields| > 1 then fields[1] else "")
  }

  /** `id` matches `^<tag>(\d+)$`. */
  predicate Tagged(id: string, tag: string) {
    |id| > |tag| && id[..|tag|] == tag && IsDigits(id[|tag|..])
  }

  /** No id carries both tags. */
  lemma TagsExclusive(id: string)
    requires Tagged(id, "LCD")
    ensures !Tagged(id, "Enc")
  {
    assert id[..3][0] == 'L';
  }

  function TagValue(id: string, tag: string): nat
    requires Tagged(id, tag)
  {
    DigitsValue(id[|tag|..])
  }

  /**
   * `parseTriggerId` AS WRITTEN. In the `LCD<n>` branch `lcdSegment` is
   * copied from `encoder`, which that branch never sets, so the parsed
   * digits are lost and every field but `id` and `action` is undefined.
   */
  function ParseTriggerIdAsWritten(triggerId: string): (r: ParsedTrigger)
    ensures (r.id, r.action) == SplitTrigger(triggerId)
    ensures Tagged(r.id, "LCD") ==> r.key.None? && r.encoder.None? && r.lcdSegment.None?
  {
    var (id, action) := SplitTrigger(triggerId);
    if Tagged(id, "Enc") then
      var encoder := TagValue(id, "Enc");
      ParsedTrigger(id, None, Some(encoder), Some(encoder), action)
    else if Tagged(id, "LCD") then
      var encoder: Option<nat> := None;
      ParsedTrigger(id, None, None, encoder, action)
    else
      ParsedTrigger(id, Some(ToNumber(id)), None, None, action)
  }

  /** `parseTriggerId` as evidently intended: `LCD<n>` yields `lcdSegment = n`. */
  function ParseTriggerId(triggerId: string): (r: ParsedTrigger)
    ensures (r.id, r.action) == SplitTrigger(triggerId)
    ensures Tagged(r.id, "Enc") ==> r.key.None? && r.encoder == r.lcdSegment == Some(TagValue(r.id, "Enc"))
    ensures Tagged(r.id, "LCD") ==> r.key.None? && r.encoder.None? && r.lcdSegment == Some(TagValue(r.id, "LCD"))
    ensures !Tagged(r.id, "Enc") && !Tagged(r.id, "LCD") ==>
              r.key == Some(ToNumber(r.id)) && r.encoder.None? && r.lcdSegment.None?
  {
    var (id, action) := SplitTrigger(triggerId);
    if Tagged(id, "LCD") then
      TagsExclusive(id);
      DecodeId(id, action)
    else
      DecodeId(id, action)
  }

  /** The branches of the grammar, for an id and an action already split apart. */
  function DecodeId(id: string, action: string): ParsedTrigger
  {
    if Tagged(id, "Enc") then
      ParsedTrigger(id, None, Some(TagValue(id, "Enc")), Some(TagValue(id, "Enc")), action)
    else if Tagged(id, "LCD") then
      ParsedTrigger(id, None, None, Some(TagValue(id, "LCD")), action)
    else
      ParsedTrigger(id, Some(ToNumber(id)), None, None, action)
  }

  /** What a control's id decodes to, with the given action. */
  function Decoded(c: ControlDef, action: string): ParsedTrigger {
    match c
    case ButtonControl(i, _) => ParsedTrigger(TriggerId(c), Some(Num(i)), None, None, action)
    case EncoderControl(i) => ParsedTrigger(TriggerId(c), None, Some(i), Some(i), action)
    case LcdSegmentControl(id, _) => ParsedTrigger(TriggerId(c), None, None, Some(id), action)
  }

  /** Which branch of the grammar a control's id takes, and the number it carries. */
  lemma IdShape(c: ControlDef)
    ensures c.ButtonControl? ==> !Tagged(TriggerId(c), "Enc") && !Tagged(TriggerId(c), "LCD") &&
                                 ToNumber(TriggerId(c)) == Num(c.index)
    ensures c.EncoderControl? ==> Tagged(TriggerId(c), "Enc") && TagValue(TriggerId(c), "Enc") == c.index
    ensures c.LcdSegmentControl? ==> !Tagged(TriggerId(c), "Enc") && Tagged(TriggerId(c), "LCD") &&
                                     TagValue(TriggerId(c), "LCD") == c.id
  {
    var id := TriggerId(c);
    TriggerIdShape(c);
    match c
    case ButtonControl(_, _) =>
      assert id[0..] == id;
      assert IsDigit(id[0]);
    case EncoderControl(_) =>
    case LcdSegmentControl(_, _) =>
      TagsExclusive(id);
  }

  lemma DecodedIsDecodeId(c: ControlDef, action: string)
    ensures Decoded(c, action) == DecodeId(TriggerId(c), action)
  {
    IdShape(c);
  }

  /** The id of each kind of control decodes to that kind and number. */
  lemma ParseId(c: ControlDef, action: string)
    requires NoSpace(action)
    ensures ParseTriggerId(TriggerId(c)) == Decoded(c, "")
    ensures ParseTriggerId(TriggerId(c) + " " + action) == Decoded(c, action)
  {
    var id := TriggerId(c);
    TriggerIdShape(c);
    FieldsOfWord(id);
    FieldsOfPair(id, action);
    DecodedIsDecodeId(c, "");
    DecodedIsDecodeId(c, action);
  }

  /** The id of a control determines its kind and its number. */
  lemma TriggerIdInjective(c1: ControlDef, c2: ControlDef)
    requires TriggerId(c1) == TriggerId(c2)
    ensures Prefix(c1) == Prefix(c2) && ControlNumber(c1) == ControlNumber(c2)
  {
    ParseId(c1, "");
    ParseId(c2, "");
  }

  /**
   * The two parsers agree on every trigger string except in the
   * `lcdSegment` of an `LCD<n>` id, which the written one drops.
   */
  lemma AsWrittenDiffersOnlyOnLcd(triggerId: string)
    ensures var w, f := ParseTriggerIdAsWritten(triggerId), ParseTriggerId(triggerId);
            w == f || (Tagged(f.id, "LCD") && w == f.(lcdSegment := None))
  {
    var (id, _) := SplitTrigger(triggerId);
    if Tagged(id, "LCD") {
      TagsExclusive(id);
    }
  }

  /** The LCD round trip that the written parser breaks: the segment id is lost. */
  lemma LcdSegmentIdLost(n: nat, size: Size)
    ensures ParseTriggerIdAsWritten(TriggerId(LcdSegmentControl(n, size))).lcdSegment == None
    ensures ParseTriggerId(TriggerId(LcdSegmentControl(n, size))).lcdSegment == Some(n)
  {
    ParseId(LcdSegmentControl(n, size), "");
  }

  /** Which `parseTriggerId` is in use: the one in the code, or the corrected one. */
  datatype Parser = AsWritten | Corrected

  function Parse(parser: Parser, triggerId: string): ParsedTrigger {
    match parser
    case AsWritten => ParseTriggerIdAsWritten(triggerId)
    case Corrected => ParseTriggerId(triggerId)
  }

  /** What a control's id decodes to under a parser: the written one drops only an LCD segment's number. */
  function DecodedBy(parser: Parser, c: ControlDef, action: string): ParsedTrigger {
    if parser.AsWritten? && c.LcdSegmentControl? then Decoded(c, action).(lcdSegment := None)
    else Decoded(c, action)
  }

  /**
   * Under either parser a control's id, alone or followed by an action,
   * gives back the id and the action, and every number but an LCD
   * segment's under the written parser.
   */
  lemma ParseControlId(parser: Parser, c: ControlDef, action: string)
    requires NoSpace(action)
    ensures Parse(parser, TriggerId(c)) == DecodedBy(parser, c, "")
    ensures Parse(parser, TriggerId(c) + " " + action) == DecodedBy(parser, c, action)
  {
    ParseId(c, action);
    IdShape(c);
    AsWrittenDiffersOnlyOnLcd(TriggerId(c));
    AsWrittenDiffersOnlyOnLcd(TriggerId(c) + " " + action);
  }
}

/** The phone's JSON writer over UTF-16 strings, and the reader of RFC 8259 it must
    satisfy (for flat objects). */
module Json {
  import opened Wrappers
  import opened Model

  newtype CodeUnit = x: int | 0 <= x < 0x10000
  type Text = seq<CodeUnit>

  const QUOTE: CodeUnit := 34
  const BACKSLASH: CodeUnit := 92
  const COMMA: CodeUnit := 44
  const COLON: CodeUnit := 58
  const OPEN: CodeUnit := 123
  const CLOSE: CodeUnit := 125
  const MINUS: CodeUnit := 45
  const POINT: CodeUnit := 46

  // ---- The writer --------------------------------------------------------------------------

  function HexDigit(n: nat): CodeUnit
    requires n < 16
  {
    (if n < 10 then 48 + n else 87 + n) as CodeUnit
  }

  function Escape(c: CodeUnit): Text {
    if c == QUOTE then [BACKSLASH, QUOTE]
    else if c == BACKSLASH then [BACKSLASH, BACKSLASH]
    else if c == 10 then [BACKSLASH, 110]
    else if c == 13 then [BACKSLASH, 114]
    else if c == 9 then [BACKSLASH, 116]
    else if c < 32 then [BACKSLASH, 117, 48, 48, HexDigit(c as int / 16), HexDigit(c as int % 16)]
    else [c]
  }

  function EscapeAll(s: Text): Text {
    if s == [] then [] else Escape(s[0]) + EscapeAll(s[1..])
  }

  function Quoted(s: Text): Text {
    [QUOTE] + EscapeAll(s) + [QUOTE]
  }

  method Quote(s: Text) returns (sb: Text)
    ensures sb == Quoted(s)
  {
    sb := [QUOTE];
    for i := 0 to |s|
      invariant sb + EscapeAll(s[i..]) == [QUOTE] + EscapeAll(s)
    {
      assert s[i..][1..] == s[i + 1..];
      assert sb + (Escape(s[i]) + EscapeAll(s[i + 1..])) == sb + Escape(s[i]) + EscapeAll(s[i + 1..]);
      var c := s[i];
      if c == QUOTE {
        sb := sb + [BACKSLASH, QUOTE];
      } else if c == BACKSLASH {
        sb := sb + [BACKSLASH, BACKSLASH];
      } else if c == 10 {
        sb := sb + [BACKSLASH, 110];
      } else if c == 13 {
        sb := sb + [BACKSLASH, 114];
      } else if c == 9 {
        sb := sb + [BACKSLASH, 116];
      } else if c < 32 {
        sb := sb + [BACKSLASH, 117, 48, 48, HexDigit(c as int / 16), HexDigit(c as int % 16)];
      } else {
        sb := sb + [c];
      }
    }
    assert sb + [] == sb;
    sb := sb + [QUOTE];
  }

  function Digits(n: nat): (r: Text)
    ensures r != [] && forall c :: c in r ==> 48 <= c <= 57
  {
    if n < 10 then [(48 + n) as CodeUnit] else Digits(n / 10) + [(48 + n % 10) as CodeUnit]
  }

  function IntText(n: int): Text {
    if n < 0 then [MINUS] + Digits(-n) else Digits(n)
  }

  /** A float comes with the text its `toString` gives it; if it is not finite the writer
      puts a zero instead. */
  datatype Value = Null | Str(s: Text) | Bool(b: bool) | Int(n: int) | Float(finite: bool, text: Text)

  const NULL: Text := [110, 117, 108, 108]
  const TRUE: Text := [116, 114, 117, 101]
  const FALSE: Text := [102, 97, 108, 115, 101]

  function EncodeValue(v: Value): Text {
    match v
    case Null => NULL
    case Str(s) => Quoted(s)
    case Bool(b) => if b then TRUE else FALSE
    case Int(n) => IntText(n)
    case Float(finite, text) => if finite then text else [48]
  }

  datatype Field = Field(key: Text, value: Value)

  function Member(f: Field): Text {
    Quoted(f.key) + [COLON] + EncodeValue(f.value)
  }

  function Members(fields: seq<Field>): Text {
    if fields == [] then []
    else if |fields| == 1 then Member(fields[0])
    else Member(fields[0]) + [COMMA] + Members(fields[1..])
  }

  function JsonObject(fields: seq<Field>): Text {
    [OPEN] + Members(fields) + [CLOSE]
  }

  // ---- The reader: strings (RFC 8259, section 7) ----------------------------------------------

  function HexValue(c: CodeUnit): Option<nat> {
    if 48 <= c <= 57 then Some(c as int - 48)
    else if 97 <= c <= 102 then Some(c as int - 87)
    else if 65 <= c <= 70 then Some(c as int - 55)
    else None
  }

  function ScanHex(t: Text): Option<CodeUnit> {
    if |t| < 4 then None
    else
      match (HexValue(t[0]), HexValue(t[1]), HexValue(t[2]), HexValue(t[3]))
      case (Some(a), Some(b), Some(c), Some(d)) =>
        var v := ((a * 16 + b) * 16 + c) * 16 + d;
        if v < 0x10000 then Some(v as CodeUnit) else None
      case _ => None
  }

  /** What follows a backslash. */
  function ScanEscape(t: Text): (r: Option<(CodeUnit, Text)>)
    ensures r.Some? ==> |r.value.1| < |t|
  {
    if t == [] then None
    else if t[0] == QUOTE || t[0] == BACKSLASH || t[0] == 47 then Some((t[0], t[1..]))
    else if t[0] == 98 then Some((8, t[1..]))
    else if t[0] == 102 then Some((12, t[1..]))
    else if t[0] == 110 then Some((10, t[1..]))
    else if t[0] == 114 then Some((13, t[1..]))
    else if t[0] == 116 then Some((9, t[1..]))
    else if t[0] == 117 && ScanHex(t[1..]).Some? then Some((ScanHex(t[1..]).value, t[5..]))
    else None
  }

  function Prepend(c: CodeUnit, r: Option<(Text, Text)>): Option<(Text, Text)> {
    match r
    case None => None
    case Some((s, rest)) => Some(([c] + s, rest))
  }

  /** The characters of a string up to its closing quote, and what follows it. */
  function ScanChars(t: Text): (r: Option<(Text, Text)>)
    ensures r.Some? ==> |r.value.1| < |t|
    decreases |t|
  {
    if t == [] then None
    else if t[0] == QUOTE then Some(([], t[1..]))
    else if t[0] == BACKSLASH then
      match ScanEscape(t[1..])
      case None => None
      case Some((c, rest)) => Prepend(c, ScanChars(rest))
    else if t[0] < 32 then None
    else Prepend(t[0], ScanChars(t[1..]))
  }

  function ScanString(t: Text): (r: Option<(Text, Text)>)
    ensures r.Some? ==> |r.value.1| < |t|
  {
    if t != [] && t[0] == QUOTE then ScanChars(t[1..]) else None
  }

  lemma PlainScans(c: CodeUnit, u: Text)
    requires c >= 32 && c != QUOTE && c != BACKSLASH
    ensures ScanChars([c] + u) == Prepend(c, ScanChars(u))
  {
    assert ([c] + u)[1..] == u;
  }

  lemma EscapedScans(c: CodeUnit, e: Text, u: Text)
    requires ScanEscape(e + u) == Some((c, u))
    ensures ScanChars([BACKSLASH] + e + u) == Prepend(c, ScanChars(u))
  {
    assert ([BACKSLASH] + e + u)[1..] == e + u;
  }

  lemma ShortEscapeScans(c: CodeUnit, e: CodeUnit, u: Text)
    requires (c, e) in {(QUOTE, QUOTE), (BACKSLASH, BACKSLASH), (10, 110), (13, 114), (9, 116)}
    ensures ScanEscape([e] + u) == Some((c, u))
  {
    assert ([e] + u)[1..] == u;
  }

  lemma HexEscapeScans(c: CodeUnit, u: Text)
    requires c < 32
    ensures ScanEscape([117, 48, 48, HexDigit(c as int / 16), HexDigit(c as int % 16)] + u) == Some((c, u))
  {
    var h, l := HexDigit(c as int / 16), HexDigit(c as int % 16);
    var t := [117, 48, 48, h, l] + u;
    assert t[1..] == [48, 48, h, l] + u && t[5..] == u;
    HexReads(c, [48, 48, h, l] + u);
  }

  lemma HexReads(c: CodeUnit, t: Text)
    requires c < 32 && |t| >= 4
    requires t[0] == t[1] == 48 && t[2] == HexDigit(c as int / 16) && t[3] == HexDigit(c as int % 16)
    ensures ScanHex(t) == Some(c)
  {
    assert HexValue(48) == Some(0);
    assert HexValue(t[2]) == Some(c as int / 16) && HexValue(t[3]) == Some(c as int % 16);
  }

  lemma EscapeScans(c: CodeUnit, u: Text)
    ensures ScanChars(Escape(c) + u) == Prepend(c, ScanChars(u))
  {
    if |Escape(c)| == 1 {
      PlainScans(c, u);
    } else if |Escape(c)| == 2 {
      ShortEscapeScans(c, Escape(c)[1], u);
      EscapedScans(c, [Escape(c)[1]], u);
      assert Escape(c) == [BACKSLASH] + [Escape(c)[1]];
    } else {
      var e := [117, 48, 48, HexDigit(c as int / 16), HexDigit(c as int % 16)];
      HexEscapeScans(c, u);
      EscapedScans(c, e, u);
      assert Escape(c) == [BACKSLASH] + e;
    }
  }

  lemma {:induction false} EscapedTextScans(s: Text, rest: Text)
    ensures ScanChars(EscapeAll(s) + [QUOTE] + rest) == Some((s, rest))
  {
    if s == [] {
      assert (EscapeAll(s) + [QUOTE] + rest)[1..] == rest;
    } else {
      EscapedTextScans(s[1..], rest);
      var u := EscapeAll(s[1..]) + [QUOTE] + rest;
      assert EscapeAll(s) + [QUOTE] + rest == Escape(s[0]) + u;
      EscapeScans(s[0], u);
      assert [s[0]] + s[1..] == s;
    }
  }

  /** Round trip: the scanner consumes exactly the quoted string, whatever follows it, and
      gives back the original. */
  lemma QuoteRoundTrip(s: Text, rest: Text)
    ensures ScanString(Quoted(s) + rest) == Some((s, rest))
  {
    EscapedTextScans(s, rest);
    assert (Quoted(s) + rest)[1..] == EscapeAll(s) + [QUOTE] + rest;
  }

  /** So different strings are never written alike, even followed by different text. */
  lemma QuoteIsInjective(s: Text, s': Text, rest: Text, rest': Text)
    requires Quoted(s) + rest == Quoted(s') + rest'
    ensures s == s' && rest == rest'
  {
    QuoteRoundTrip(s, rest);
    QuoteRoundTrip(s', rest');
  }

  // ---- The reader: values and flat objects (sections 2 to 6) ------------------------------------

  predicate IsSpace(c: CodeUnit) {
    c == 32 || c == 9 || c == 10 || c == 13
  }

  function Skip(t: Text): (r: Text)
    ensures |r| <= |t|
  {
    if t != [] && IsSpace(t[0]) then Skip(t[1..]) else t
  }

  predicate NumberChar(c: CodeUnit) {
    48 <= c <= 57 || c == MINUS || c == 43 || c == POINT || c == 101 || c == 69
  }

  /** The longest run of number characters. */
  function NumberLength(t: Text): (n: nat)
    ensures n <= |t|
  {
    if t != [] && NumberChar(t[0]) then 1 + NumberLength(t[1..]) else 0
  }

  predicate IsDigit(c: CodeUnit) {
    48 <= c <= 57
  }

  /** The longest run of digits. */
  function DigitRun(t: Text): (n: nat)
    ensures n <= |t|
    ensures forall i :: 0 <= i < n ==> IsDigit(t[i])
  {
    if t != [] && IsDigit(t[0]) then 1 + DigitRun(t[1..]) else 0
  }

  predicate AllDigits(t: Text) {
    t != [] && forall i :: 0 <= i < |t| ==> IsDigit(t[i])
  }

  function AfterSign(t: Text): Text {
    if t != [] && (t[0] == 43 || t[0] == MINUS) then t[1..] else t
  }

  predicate IsExponent(t: Text) {
    t == [] || ((t[0] == 101 || t[0] == 69) && AllDigits(AfterSign(t[1..])))
  }

  predicate IsFraction(t: Text) {
    if t == [] || t[0] != POINT then IsExponent(t)
    else DigitRun(t[1..]) >= 1 && IsExponent(t[1..][DigitRun(t[1..])..])
  }

  /** The grammar of section 6: an optional minus, digits without a leading zero, then
      perhaps a fraction and an exponent. */
  predicate IsNumber(t: Text) {
    var u := if t != [] && t[0] == MINUS then t[1..] else t;
    var n := DigitRun(u);
    n >= 1 && (n == 1 || u[0] != 48) && IsFraction(u[n..])
  }

  function DigitsValue(t: Text): int {
    if t == [] then 0 else 10 * DigitsValue(t[..|t| - 1]) + (t[|t| - 1] as int - 48)
  }

  function ReadNumber(t: Text): Value
    requires t != []
  {
    if POINT in t || 101 in t || 69 in t then Float(true, t)
    else if t[0] == MINUS then Int(-DigitsValue(t[1..]))
    else Int(DigitsValue(t))
  }

  function ParseValue(t: Text): (r: Option<(Value, Text)>)
    ensures r.Some? ==> |r.value.1| < |t|
  {
    if t == [] then None
    else if t[0] == QUOTE then
      match ScanString(t)
      case None => None
      case Some((s, rest)) => Some((Str(s), rest))
    else if NULL <= t then Some((Null, t[4..]))
    else if TRUE <= t then Some((Bool(true), t[4..]))
    else if FALSE <= t then Some((Bool(false), t[5..]))
    else if NumberChar(t[0]) then
      var n := NumberLength(t);
      if IsNumber(t[..n]) then Some((ReadNumber(t[..n]), t[n..])) else None
    else None
  }

  /** One `key : value`, white space allowed between the parts. */
  function ParseMember(t: Text): (r: Option<(Field, Text)>)
    ensures r.Some? ==> |r.value.1| < |t|
  {
    match ScanString(t)
    case None => None
    case Some((key, u)) => ParseAfterKey(key, Skip(u))
  }

  function ParseAfterKey(key: Text, t: Text): (r: Option<(Field, Text)>)
    ensures r.Some? ==> |r.value.1| < |t|
  {
    if t == [] || t[0] != COLON then None
    else
      match ParseValue(Skip(t[1..]))
      case None => None
      case Some((value, rest)) => Some((Field(key, value), Skip(rest)))
  }

  /** The members up to the closing brace. */
  function ParseMembers(t: Text): Option<(seq<Field>, Text)>
    decreases |t|
  {
    match ParseMember(t)
    case None => None
    case Some((f, u)) =>
      if u == [] then None
      else if u[0] == CLOSE then Some(([f], u[1..]))
      else if u[0] != COMMA then None
      else
        match ParseMembers(Skip(u[1..]))
        case None => None
        case Some((fs, rest)) => Some(([f] + fs, rest))
  }

  function ParseObject(t: Text): Option<(seq<Field>, Text)> {
    if t == [] || t[0] != OPEN then None
    else
      var u := Skip(t[1..]);
      if u != [] && u[0] == CLOSE then Some(([], u[1..])) else ParseMembers(u)
  }

  // ---- Objects round trip --------------------------------------------------------------------

  /** What a written value reads back as: itself, but zero for a float that is not finite. */
  function Wire(v: Value): Value {
    if v.Float? && !v.finite then Int(0) else v
  }

  /** A finite float's text is a number with a decimal point, as `Float.toString` gives. */
  predicate Writable(v: Value) {
    v.Float? && v.finite ==> POINT in v.text && IsNumber(v.text)
  }

  predicate AllWritable(fields: seq<Field>) {
    forall i :: 0 <= i < |fields| ==> Writable(fields[i].value)
  }

  lemma {:induction false} DigitsReadBack(n: nat)
    ensures DigitsValue(Digits(n)) == n
  {
    if n >= 10 {
      DigitsReadBack(n / 10);
      assert Digits(n)[..|Digits(n)| - 1] == Digits(n / 10);
    } else {
      assert Digits(n)[..0] == [];
    }
  }

  lemma {:induction false} DigitsRun(t: Text)
    requires forall c :: c in t ==> IsDigit(c)
    ensures DigitRun(t) == |t|
  {
    if t != [] {
      assert t[0] in t;
      DigitsRun(t[1..]);
    }
  }

  lemma {:induction false} NoLeadingZero(n: nat)
    requires n >= 1
    ensures Digits(n)[0] != 48
  {
    if n >= 10 {
      NoLeadingZero(n / 10);
      assert Digits(n)[0] == Digits(n / 10)[0];
    }
  }

  /** Written integers follow the grammar, with a minus sign iff they are negative. */
  lemma IntIsNumber(n: int)
    ensures IsNumber(IntText(n))
    ensures IntText(n)[0] == MINUS <==> n < 0
  {
    var m := if n < 0 then -n else n;
    DigitsRun(Digits(m));
    assert Digits(m)[|Digits(m)|..] == [];
    if m >= 1 {
      NoLeadingZero(m);
    }
    if n < 0 {
      assert IntText(n)[1..] == Digits(m);
    } else {
      assert Digits(m)[0] in Digits(m);
    }
  }

  lemma ExponentChars(t: Text)
    requires IsExponent(t)
    ensures forall i :: 0 <= i < |t| ==> NumberChar(t[i])
  {
    if t != [] {
      var u := t[1..];
      var v := AfterSign(u);
      forall i | 0 <= i < |t| ensures NumberChar(t[i]) {
        assert i > 0 ==> t[i] == u[i - 1];
        assert v != u && i > 1 ==> u[i - 1] == v[i - 2];
      }
    }
  }

  lemma FractionChars(t: Text)
    requires IsFraction(t)
    ensures forall i :: 0 <= i < |t| ==> NumberChar(t[i])
  {
    if t == [] || t[0] != POINT {
      ExponentChars(t);
    } else {
      var u := t[1..];
      ExponentChars(u[DigitRun(u)..]);
      RunThenRest(u, DigitRun(u));
    }
  }

  lemma RunThenRest(u: Text, n: nat)
    requires n <= |u| && (forall i :: 0 <= i < n ==> IsDigit(u[i]))
    requires forall i :: 0 <= i < |u[n..]| ==> NumberChar(u[n..][i])
    ensures forall i :: 0 <= i < |u| ==> NumberChar(u[i])
  {
    forall i | 0 <= i < |u| ensures NumberChar(u[i]) {
      if i >= n {
        assert u[i] == u[n..][i - n];
      }
    }
  }

  lemma NumbersConsistOfNumberChars(t: Text)
    requires IsNumber(t)
    ensures t != [] && forall c :: c in t ==> NumberChar(c)
  {
    var u := if t != [] && t[0] == MINUS then t[1..] else t;
    FractionChars(u[DigitRun(u)..]);
    RunThenRest(u, DigitRun(u));
    forall i | 0 <= i < |t| ensures NumberChar(t[i]) {
      assert u != t && i > 0 ==> t[i] == u[i - 1];
    }
  }

  lemma IntReadsBack(n: int)
    ensures IntText(n) != [] && ReadNumber(IntText(n)) == Int(n)
    ensures forall c :: c in IntText(n) ==> NumberChar(c)
  {
    DigitsReadBack(if n < 0 then -n else n);
    if n < 0 {
      assert IntText(n)[1..] == Digits(-n);
    } else {
      assert Digits(n)[0] in Digits(n);
    }
  }

  /** After a member comes a comma or a closing brace, never part of a number. */
  predicate Delimited(rest: Text) {
    rest != [] && (rest[0] == COMMA || rest[0] == CLOSE)
  }

  lemma {:induction false} NumberEnds(t: Text, rest: Text)
    requires Delimited(rest) && forall c :: c in t ==> NumberChar(c)
    ensures NumberLength(t + rest) == |t|
  {
    if t == [] {
      assert t + rest == rest;
    } else {
      assert (t + rest)[1..] == t[1..] + rest;
      assert t[0] in t;
      NumberEnds(t[1..], rest);
    }
  }

  lemma NumberReadsBack(t: Text, rest: Text)
    requires IsNumber(t) && Delimited(rest)
    ensures ParseValue(t + rest) == Some((ReadNumber(t), rest))
  {
    NumbersConsistOfNumberChars(t);
    assert t[0] in t;
    NumberEnds(t, rest);
    assert (t + rest)[..|t|] == t && (t + rest)[|t|..] == rest;
    assert NULL[0] == 110 && TRUE[0] == 116 && FALSE[0] == 102;
    assert (t + rest)[0] == t[0];
  }

  lemma ValueReadsBack(v: Value, rest: Text)
    requires Writable(v) && Delimited(rest)
    ensures ParseValue(EncodeValue(v) + rest) == Some((Wire(v), rest))
    ensures EncodeValue(v) != [] && !IsSpace(EncodeValue(v)[0])
  {
    var t := EncodeValue(v);
    match v
    case Null => assert (t + rest)[4..] == rest && (t + rest)[..4] == NULL;
    case Str(s) => QuoteRoundTrip(s, rest);
    case Bool(b) =>
      assert (t + rest)[|t|..] == rest && (t + rest)[..|t|] == t;
      assert (t + rest)[0] == t[0] && NULL[0] == 110 && TRUE[0] == 116 && FALSE[0] == 102;
    case Int(n) =>
      IntReadsBack(n);
      IntIsNumber(n);
      assert t[0] in t;
      NumberReadsBack(t, rest);
    case Float(finite, text) =>
      IntIsNumber(0);
      NumbersConsistOfNumberChars(t);
      assert t[0] in t;
      assert [48][..0] == [] && DigitsValue([48]) == 0;
      NumberReadsBack(t, rest);
  }

  lemma AfterKeyReadsBack(f: Field, rest: Text)
    requires Writable(f.value) && Delimited(rest)
    ensures ParseAfterKey(f.key, [COLON] + EncodeValue(f.value) + rest) == Some((Field(f.key, Wire(f.value)), rest))
  {
    var value := EncodeValue(f.value);
    ValueReadsBack(f.value, rest);
    assert ([COLON] + value + rest)[1..] == value + rest;
    assert (value + rest)[0] == value[0];
  }

  lemma KeyReads(key: Text, u: Text)
    requires u != [] && u[0] == COLON
    ensures ParseMember(Quoted(key) + u) == ParseAfterKey(key, u)
  {
    QuoteRoundTrip(key, u);
  }

  lemma MemberUnfolds(f: Field, rest: Text)
    ensures Member(f) + rest == Quoted(f.key) + ([COLON] + EncodeValue(f.value) + rest)
  {
    Regroup(Quoted(f.key), [COLON], EncodeValue(f.value), rest);
    assert [COLON] + EncodeValue(f.value) + rest == [COLON] + (EncodeValue(f.value) + rest);
  }

  lemma MemberReadsBack(f: Field, rest: Text)
    requires Writable(f.value) && Delimited(rest)
    ensures ParseMember(Member(f) + rest) == Some((Field(f.key, Wire(f.value)), rest))
  {
    MemberUnfolds(f, rest);
    KeyReads(f.key, [COLON] + EncodeValue(f.value) + rest);
    AfterKeyReadsBack(f, rest);
  }

  function WireFields(fields: seq<Field>): seq<Field> {
    if fields == [] then [] else [Field(fields[0].key, Wire(fields[0].value))] + WireFields(fields[1..])
  }

  lemma LastMemberReadsBack(f: Field, rest: Text)
    requires Writable(f.value)
    ensures ParseMembers(Member(f) + ([CLOSE] + rest)) == Some(([Field(f.key, Wire(f.value))], rest))
  {
    MemberReadsBack(f, [CLOSE] + rest);
    assert ([CLOSE] + rest)[1..] == rest;
  }

  lemma NextMemberReadsBack(f: Field, more: Text)
    requires Writable(f.value) && more != [] && more[0] == QUOTE
    ensures ParseMembers(Member(f) + ([COMMA] + more)) ==
            match ParseMembers(more)
            case None => None
            case Some((fs, rest)) => Some(([Field(f.key, Wire(f.value))] + fs, rest))
  {
    MemberReadsBack(f, [COMMA] + more);
    assert ([COMMA] + more)[1..] == more;
  }

  lemma MembersUnfold(fields: seq<Field>, tail: Text)
    requires |fields| > 1
    ensures Members(fields) + tail == Member(fields[0]) + ([COMMA] + (Members(fields[1..]) + tail))
  {
    var first, more := Member(fields[0]), Members(fields[1..]);
    assert Members(fields) == first + [COMMA] + more;
    Regroup(first, [COMMA], more, tail);
  }

  lemma Regroup(a: Text, b: Text, c: Text, d: Text)
    ensures (a + b + c) + d == a + (b + (c + d))
  {
  }

  lemma {:induction false} MembersReadBack(fields: seq<Field>, rest: Text)
    requires fields != [] && AllWritable(fields)
    ensures ParseMembers(Members(fields) + ([CLOSE] + rest)) == Some((WireFields(fields), rest))
    decreases |fields|
  {
    if |fields| == 1 {
      LastMemberReadsBack(fields[0], rest);
      assert WireFields(fields) == [Field(fields[0].key, Wire(fields[0].value))];
    } else {
      MembersReadBack(fields[1..], rest);
      MembersStartWithQuote(fields[1..]);
      MembersUnfold(fields, [CLOSE] + rest);
      NextMemberReadsBack(fields[0], Members(fields[1..]) + ([CLOSE] + rest));
    }
  }

  lemma MembersStartWithQuote(fields: seq<Field>)
    requires fields != []
    ensures Members(fields) != [] && Members(fields)[0] == QUOTE
  {
    assert Member(fields[0])[0] == QUOTE;
  }

  /** Reading what `jsonObject` wrote gives back the fields, in order, whatever the keys
      and values contain and whatever follows: no value can change the structure. */
  lemma ObjectRoundTrip(fields: seq<Field>, rest: Text)
    requires AllWritable(fields)
    ensures ParseObject(JsonObject(fields) + rest) == Some((WireFields(fields), rest))
  {
    var u := Members(fields) + ([CLOSE] + rest);
    assert JsonObject(fields) + rest == [OPEN] + u;
    if fields == [] {
      assert u == [CLOSE] + rest;
      EmptyObjectReads(rest);
    } else {
      MembersStartWithQuote(fields);
      ObjectReads(u);
      MembersReadBack(fields, rest);
    }
  }

  lemma EmptyObjectReads(rest: Text)
    ensures ParseObject([OPEN] + ([CLOSE] + rest)) == Some(([], rest))
  {
    assert ([OPEN] + ([CLOSE] + rest))[1..] == [CLOSE] + rest;
    assert ([CLOSE] + rest)[1..] == rest;
  }

  lemma ObjectReads(u: Text)
    requires u != [] && u[0] == QUOTE
    ensures ParseObject([OPEN] + u) == ParseMembers(u)
  {
    assert ([OPEN] + u)[1..] == u && Skip(u) == u;
  }

  lemma {:induction false} WireFieldsAt(fields: seq<Field>, i: nat)
    requires i < |fields|
    ensures |WireFields(fields)| == |fields|
    ensures WireFields(fields)[i] == Field(fields[i].key, Wire(fields[i].value))
  {
    if |fields| > 1 {
      WireFieldsAt(fields[1..], if i > 0 then i - 1 else 0);
    }
  }

  /** Two field lists written alike have the same keys and, on the wire, the same values. */
  lemma ObjectIsInjective(fs: seq<Field>, fs': seq<Field>)
    requires JsonObject(fs) == JsonObject(fs')
    requires AllWritable(fs) && AllWritable(fs')
    ensures |fs| == |fs'|
    ensures forall i :: 0 <= i < |fs| ==> fs[i].key == fs'[i].key && Wire(fs[i].value) == Wire(fs'[i].value)
  {
    ObjectRoundTrip(fs, []);
    ObjectRoundTrip(fs', []);
    assert WireFields(fs) == WireFields(fs');
    if fs != [] {
      WireFieldsAt(fs, 0);
    }
    if fs' != [] {
      WireFieldsAt(fs', 0);
    }
    forall i | 0 <= i < |fs| ensures fs[i].key == fs'[i].key && Wire(fs[i].value) == Wire(fs'[i].value) {
      WireFieldsAt(fs, i);
      WireFieldsAt(fs', i);
    }
  }

  // ---- The event body ---------------------------------------------------------------------------

  /** A name written with ASCII characters. */
  function Ascii(name: string): Text {
    seq(|name|, i requires 0 <= i < |name| => CodeOf(name[i]))
  }

  function CodeOf(c: char): CodeUnit {
    if c as int < 0x10000 then c as int as CodeUnit else 63
  }

  function TypeName(kind: DetectorType): Text {
    match kind
    case Fire => Ascii("FIRE")
    case Smoke => Ascii("SMOKE")
    case Fall => Ascii("FALL")
    case Intrusion => Ascii("INTRUSION")
    case CameraTampering => Ascii("CAMERA_TAMPERING")
  }

  /** A confirmed hazard as the phone's wire contract sees it. */
  datatype WireEvent = WireEvent(
    id: Text, kind: DetectorType, confidence: Value, firstSeenMs: int, confirmedAtMs: int)

  function EventFields(deviceId: Text, appVersion: Text, e: WireEvent): seq<Field> {
    [ Field(Ascii("deviceId"), Str(deviceId)),
      Field(Ascii("eventId"), Str(e.id)),
      Field(Ascii("type"), Str(TypeName(e.kind))),
      Field(Ascii("confidence"), e.confidence),
      Field(Ascii("firstSeenMs"), Int(e.firstSeenMs)),
      Field(Ascii("confirmedAtMs"), Int(e.confirmedAtMs)),
      Field(Ascii("appVersion"), Str(appVersion)) ]
  }

  function EventJson(deviceId: Text, appVersion: Text, e: WireEvent): Text {
    JsonObject(EventFields(deviceId, appVersion, e))
  }

  lemma TypeNamesDiffer(a: DetectorType, b: DetectorType)
    ensures TypeName(a) == TypeName(b) ==> a == b
  {
    assert TypeName(a) == TypeName(b) ==> TypeName(a)[0] == TypeName(b)[0] && |TypeName(a)| == |TypeName(b)|;
    assert TypeName(Fire)[1] == 73 && TypeName(Fall)[1] == 65;
  }

  /** The seven values of an event body, by position. */
  predicate Carries(fs: seq<Field>, deviceId: Text, appVersion: Text, e: WireEvent) {
    && |fs| == 7
    && fs[0].value == Str(deviceId) && fs[1].value == Str(e.id) && fs[2].value == Str(TypeName(e.kind))
    && fs[3].value == e.confidence && fs[4].value == Int(e.firstSeenMs) && fs[5].value == Int(e.confirmedAtMs)
    && fs[6].value == Str(appVersion)
  }

  lemma EventFieldsCarry(deviceId: Text, appVersion: Text, e: WireEvent)
    requires Writable(e.confidence)
    ensures Carries(EventFields(deviceId, appVersion, e), deviceId, appVersion, e)
    ensures AllWritable(EventFields(deviceId, appVersion, e))
  {
  }

  lemma CarriedAlike(
      fs: seq<Field>, deviceId: Text, appVersion: Text, e: WireEvent,
      fs': seq<Field>, deviceId': Text, appVersion': Text, e': WireEvent)
    requires Carries(fs, deviceId, appVersion, e) && Carries(fs', deviceId', appVersion', e')
    requires forall i :: 0 <= i < |fs| ==> Wire(fs[i].value) == Wire(fs'[i].value)
    ensures deviceId == deviceId' && appVersion == appVersion' && e.id == e'.id && e.kind == e'.kind
    ensures e.firstSeenMs == e'.firstSeenMs && e.confirmedAtMs == e'.confirmedAtMs
    ensures Wire(e.confidence) == Wire(e'.confidence)
  {
    TypeNamesDiffer(e.kind, e'.kind);
  }

  /** Two event bodies are the same text only if they are the same event of the same
      device and app version: identifiers cannot imitate one another whatever
      characters they hold. */
  lemma EventJsonIsInjective(
      deviceId: Text, appVersion: Text, e: WireEvent, deviceId': Text, appVersion': Text, e': WireEvent)
    requires EventJson(deviceId, appVersion, e) == EventJson(deviceId', appVersion', e')
    requires Writable(e.confidence) && Writable(e'.confidence)
    ensures deviceId == deviceId' && appVersion == appVersion' && e.id == e'.id && e.kind == e'.kind
    ensures e.firstSeenMs == e'.firstSeenMs && e.confirmedAtMs == e'.confirmedAtMs
    ensures Wire(e.confidence) == Wire(e'.confidence)
  {
    EventFieldsCarry(deviceId, appVersion, e);
    EventFieldsCarry(deviceId', appVersion', e');
    ObjectIsInjective(EventFields(deviceId, appVersion, e), EventFields(deviceId', appVersion', e'));
    CarriedAlike(EventFields(deviceId, appVersion, e), deviceId, appVersion, e,
                 EventFields(deviceId', appVersion', e'), deviceId', appVersion', e');
  }

  // ---- What the body says ------------------------------------------------------------------------

  /** Is the text this name, character by character? */
  predicate Spells(t: Text, name: string) {
    |t| == |name| && forall i :: 0 <= i < |t| ==> t[i] as int == name[i] as int
  }

  lemma AsciiSpells(name: string)
    requires forall i :: 0 <= i < |name| ==> name[i] < 128 as char
    ensures Spells(Ascii(name), name)
  {
  }

  function NameOf(kind: DetectorType): string {
    match kind
    case Fire => "FIRE"
    case Smoke => "SMOKE"
    case Fall => "FALL"
    case Intrusion => "INTRUSION"
    case CameraTampering => "CAMERA_TAMPERING"
  }

  lemma WiredBody(
      fields: seq<Field>, k0: Text, k1: Text, k2: Text, k3: Text, k4: Text, k5: Text, k6: Text,
      a: Text, b: Text, c: Text, v: Value, m: int, n: int, d: Text)
    requires fields == [Field(k0, Str(a)), Field(k1, Str(b)), Field(k2, Str(c)), Field(k3, v),
                        Field(k4, Int(m)), Field(k5, Int(n)), Field(k6, Str(d))]
    ensures WireFields(fields) == [Field(k0, Str(a)), Field(k1, Str(b)), Field(k2, Str(c)), Field(k3, Wire(v)),
                                   Field(k4, Int(m)), Field(k5, Int(n)), Field(k6, Str(d))]
  {
    WireFieldsAt(fields, 0);
    WireFieldsAt(fields, 1);
    WireFieldsAt(fields, 2);
    WireFieldsAt(fields, 3);
    WireFieldsAt(fields, 4);
    WireFieldsAt(fields, 5);
    WireFieldsAt(fields, 6);
  }

  lemma NamesSpell(kind: DetectorType)
    ensures Spells(Ascii("deviceId"), "deviceId") && Spells(Ascii("eventId"), "eventId")
    ensures Spells(Ascii("type"), "type") && Spells(Ascii("confidence"), "confidence")
    ensures Spells(Ascii("firstSeenMs"), "firstSeenMs") && Spells(Ascii("confirmedAtMs"), "confirmedAtMs")
    ensures Spells(Ascii("appVersion"), "appVersion") && Spells(TypeName(kind), NameOf(kind))
  {
    AsciiSpells("deviceId");
    AsciiSpells("eventId");
    AsciiSpells("type");
    AsciiSpells("confidence");
    AsciiSpells("firstSeenMs");
    AsciiSpells("confirmedAtMs");
    AsciiSpells("appVersion");
    AsciiSpells(NameOf(kind));
    assert TypeName(kind) == Ascii(NameOf(kind));
  }

  /** What a reader finds in an event body: seven fields under these names, in this order, with
      the event's own values. */
  lemma EventBodyOutcome(deviceId: Text, appVersion: Text, e: WireEvent, rest: Text) returns (fields: seq<Field>)
    requires Writable(e.confidence)
    ensures ParseObject(EventJson(deviceId, appVersion, e) + rest) == Some((fields, rest)) && |fields| == 7
    ensures Spells(fields[0].key, "deviceId") && fields[0].value == Str(deviceId)
    ensures Spells(fields[1].key, "eventId") && fields[1].value == Str(e.id)
    ensures Spells(fields[2].key, "type") && fields[2].value.Str? && Spells(fields[2].value.s, NameOf(e.kind))
    ensures Spells(fields[3].key, "confidence") && fields[3].value == Wire(e.confidence)
    ensures Spells(fields[4].key, "firstSeenMs") && fields[4].value == Int(e.firstSeenMs)
    ensures Spells(fields[5].key, "confirmedAtMs") && fields[5].value == Int(e.confirmedAtMs)
    ensures Spells(fields[6].key, "appVersion") && fields[6].value == Str(appVersion)
  {
    EventFieldsCarry(deviceId, appVersion, e);
    ObjectRoundTrip(EventFields(deviceId, appVersion, e), rest);
    NamesSpell(e.kind);
    WiredBody(EventFields(deviceId, appVersion, e), Ascii("deviceId"), Ascii("eventId"), Ascii("type"),
              Ascii("confidence"), Ascii("firstSeenMs"), Ascii("confirmedAtMs"), Ascii("appVersion"),
              deviceId, e.id, TypeName(e.kind), e.confidence, e.firstSeenMs, e.confirmedAtMs, appVersion);
    fields := WireFields(EventFields(deviceId, appVersion, e));
  }
}

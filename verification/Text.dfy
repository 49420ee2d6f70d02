/** The string operations of Python that the CSV parsers rely on: `str.strip`,
    `str.split` on one character, `int` and decimal printing. */
module Text {

  datatype Option<+T> = None | Some(value: T)

  /** The characters `str.strip()` removes. */
  predicate IsSpace(c: char) {
    var n := c as int;
    || 0x09 <= n <= 0x0d || 0x1c <= n <= 0x20 || n == 0x85 || n == 0xa0 || n == 0x1680
    || 0x2000 <= n <= 0x200a || n == 0x2028 || n == 0x2029 || n == 0x202f || n == 0x205f || n == 0x3000
  }

  /** One by one: the control characters among them, the blanks, and the two separators. */
  lemma SpacesAre(c: char)
    ensures IsSpace(c) <==>
            c as int in {0x09, 0x0a, 0x0b, 0x0c, 0x0d, 0x1c, 0x1d, 0x1e, 0x1f, 0x20, 0x85, 0xa0, 0x1680,
                         0x2000, 0x2001, 0x2002, 0x2003, 0x2004, 0x2005, 0x2006, 0x2007, 0x2008, 0x2009, 0x200a,
                         0x2028, 0x2029, 0x202f, 0x205f, 0x3000}
  {}

  predicate Trimmed(s: string) {
    s == [] || (!IsSpace(s[0]) && !IsSpace(s[|s| - 1]))
  }

  function LStrip(s: string): string {
    if s != [] && IsSpace(s[0]) then LStrip(s[1..]) else s
  }

  function RStrip(s: string): string {
    if s != [] && IsSpace(s[|s| - 1]) then RStrip(s[..|s| - 1]) else s
  }

  function Strip(s: string): string {
    RStrip(LStrip(s))
  }

  lemma LStripHead(s: string)
    ensures LStrip(s) == [] || !IsSpace(LStrip(s)[0])
  {}

  lemma {:induction false} RStripEnds(s: string)
    ensures RStrip(s) == [] || !IsSpace(RStrip(s)[|RStrip(s)| - 1])
    ensures RStrip(s) == [] || RStrip(s)[0] == s[0]
  {
    if s != [] && IsSpace(s[|s| - 1]) {
      RStripEnds(s[..|s| - 1]);
    }
  }

  /** Stripping trims, keeps a trimmed string, and invents no character. */
  lemma StripTrims(s: string)
    ensures Trimmed(Strip(s))
    ensures Trimmed(s) ==> Strip(s) == s
  {
    LStripHead(s);
    RStripEnds(LStrip(s));
  }

  lemma {:induction false} LStripChars(s: string, c: char)
    ensures c in LStrip(s) ==> c in s
  {
    if s != [] && IsSpace(s[0]) {
      LStripChars(s[1..], c);
    }
  }

  lemma {:induction false} RStripChars(s: string, c: char)
    ensures c in RStrip(s) ==> c in s
  {
    if s != [] && IsSpace(s[|s| - 1]) {
      RStripChars(s[..|s| - 1], c);
    }
  }

  lemma StripChars(s: string, c: char)
    ensures c in Strip(s) ==> c in s
  {
    LStripChars(s, c);
    RStripChars(LStrip(s), c);
  }

  predicate AllSpace(s: string) { forall c | c in s :: IsSpace(c) }

  /** `text` is `core` with white space before and behind it. */
  ghost predicate Padded(text: string, core: string) {
    exists a: string, b: string :: AllSpace(a) && AllSpace(b) && text == a + core + b
  }

  lemma {:induction false} LStripParts(s: string) returns (a: string)
    ensures AllSpace(a) && s == a + LStrip(s)
  {
    a := [];
    if s != [] && IsSpace(s[0]) {
      var rest := LStripParts(s[1..]);
      a := [s[0]] + rest;
      assert s == [s[0]] + s[1..];
    }
  }

  lemma {:induction false} RStripParts(s: string) returns (b: string)
    ensures AllSpace(b) && s == RStrip(s) + b
  {
    b := [];
    if s != [] && IsSpace(s[|s| - 1]) {
      var rest := RStripParts(s[..|s| - 1]);
      b := rest + [s[|s| - 1]];
      assert s == s[..|s| - 1] + [s[|s| - 1]];
    }
  }

  lemma {:induction false} LStripPadding(a: string, s: string)
    requires AllSpace(a)
    ensures LStrip(a + s) == LStrip(s)
  {
    if a == [] {
      assert a + s == s;
    } else {
      assert (a + s)[1..] == a[1..] + s;
      LStripPadding(a[1..], s);
    }
  }

  lemma {:induction false} RStripPadding(s: string, b: string)
    requires AllSpace(b)
    ensures RStrip(s + b) == RStrip(s)
  {
    if b == [] {
      assert s + b == s;
    } else {
      assert (s + b)[..|s + b| - 1] == s + b[..|b| - 1];
      RStripPadding(s, b[..|b| - 1]);
    }
  }

  lemma {:induction false} LStripConcat(s: string, b: string)
    requires AllSpace(b)
    ensures LStrip(s + b) == LStrip(s) + b || (LStrip(s) == [] && LStrip(s + b) == [])
  {
    if s == [] {
      assert s + b == b + [];
      LStripPadding(b, []);
    } else if IsSpace(s[0]) {
      assert (s + b)[1..] == s[1..] + b;
      LStripConcat(s[1..], b);
    }
  }

  /** Outer white space does not matter. */
  lemma StripPadding(a: string, s: string, b: string)
    requires AllSpace(a) && AllSpace(b)
    ensures Strip(a + s + b) == Strip(s)
  {
    assert a + s + b == a + (s + b);
    LStripPadding(a, s + b);
    LStripConcat(s, b);
    if LStrip(s + b) == LStrip(s) + b {
      RStripPadding(LStrip(s), b);
    }
  }

  /** What `strip` returns: the part without outer white space that is left when only
      white space is taken off. */
  lemma {:induction false} StripIff(text: string, core: string)
    ensures Strip(text) == core <==> Trimmed(core) && Padded(text, core)
  {
    if Strip(text) == core {
      StripTrims(text);
      var a := LStripParts(text);
      var b := RStripParts(LStrip(text));
      assert text == a + core + b;
    }
    if Trimmed(core) && Padded(text, core) {
      var a: string, b: string :| AllSpace(a) && AllSpace(b) && text == a + core + b;
      StripPadding(a, core, b);
      StripTrims(core);
    }
  }

  lemma {:induction false} BlankIff(s: string)
    ensures Strip(s) == [] <==> AllSpace(s)
  {
    StripIff(s, []);
    if AllSpace(s) {
      assert AllSpace([]) && s == s + [] + [];
    }
    if Padded(s, []) {
      var a: string, b: string :| AllSpace(a) && AllSpace(b) && s == a + [] + b;
      forall c | c in s ensures c in a || c in b {}
    }
  }

  // -------------------------------------------------------------------
  // Splitting

  function Split(s: string, sep: char): (parts: seq<string>)
    ensures |parts| >= 1
  {
    if s == [] then [[]]
    else
      var rest := Split(s[1..], sep);
      if s[0] == sep then [[]] + rest else [[s[0]] + rest[0]] + rest[1..]
  }

  function Join(parts: seq<string>, sep: char): string
    requires |parts| >= 1
  {
    if |parts| == 1 then parts[0] else parts[0] + [sep] + Join(parts[1..], sep)
  }

  lemma {:induction false} SplitNone(s: string, sep: char)
    requires sep !in s
    ensures Split(s, sep) == [s]
  {
    if s != [] {
      SplitNone(s[1..], sep);
      assert s == [s[0]] + s[1..];
    }
  }

  /** Splitting at a separator in the middle splits both sides. */
  lemma {:induction false} SplitAt(a: string, b: string, sep: char)
    ensures Split(a + [sep] + b, sep) == Split(a, sep) + Split(b, sep)
  {
    var s := a + [sep] + b;
    if a == [] {
      assert s[1..] == b;
    } else {
      assert s[1..] == a[1..] + [sep] + b;
      SplitAt(a[1..], b, sep);
    }
  }

  lemma {:induction false} SplitPrefix(a: string, s: string, sep: char)
    requires sep !in a
    ensures Split(a + s, sep) == [a + Split(s, sep)[0]] + Split(s, sep)[1..]
  {
    if a == [] {
      assert a + s == s && a + Split(s, sep)[0] == Split(s, sep)[0];
    } else {
      assert (a + s)[1..] == a[1..] + s;
      SplitPrefix(a[1..], s, sep);
      assert [a[0]] + (a[1..] + Split(s, sep)[0]) == a + Split(s, sep)[0];
    }
  }

  lemma {:induction false} SplitSuffix(s: string, b: string, sep: char)
    requires sep !in b
    ensures Split(s + b, sep) == LastLonger(Split(s, sep), b)
  {
    if s == [] {
      assert s + b == b && [] + b == b;
      SplitNone(b, sep);
    } else {
      assert (s + b)[1..] == s[1..] + b;
      SplitSuffix(s[1..], b, sep);
      LongerBehind(Split(s[1..], sep), b, s[0]);
    }
  }

  function LastLonger(parts: seq<string>, b: string): seq<string>
    requires parts != []
  {
    parts[..|parts| - 1] + [parts[|parts| - 1] + b]
  }

  lemma LongerBehind(rest: seq<string>, b: string, c: char)
    requires rest != []
    ensures [[]] + LastLonger(rest, b) == LastLonger([[]] + rest, b)
    ensures var longer := LastLonger(rest, b);
            [[c] + longer[0]] + longer[1..] == LastLonger([[c] + rest[0]] + rest[1..], b)
  {
    if |rest| == 1 {
      assert [c] + (rest[0] + b) == ([c] + rest[0]) + b;
    }
  }

  lemma {:induction false} SplitJoin(parts: seq<string>, sep: char)
    requires |parts| >= 1
    requires forall p | p in parts :: sep !in p
    ensures Split(Join(parts, sep), sep) == parts
  {
    SplitNone(parts[0], sep);
    if |parts| > 1 {
      SplitJoin(parts[1..], sep);
      SplitAt(parts[0], Join(parts[1..], sep), sep);
    }
  }

  lemma {:induction false} JoinSplit(s: string, sep: char)
    ensures Join(Split(s, sep), sep) == s
    ensures forall p | p in Split(s, sep) :: sep !in p
  {
    if s != [] {
      JoinSplit(s[1..], sep);
      var rest := Split(s[1..], sep);
      if s[0] == sep {
        assert Split(s, sep)[1..] == rest;
      } else {
        assert Split(s, sep)[1..] == rest[1..];
        assert Join(Split(s, sep), sep) == [s[0]] + Join(rest, sep);
      }
    }
  }

  // -------------------------------------------------------------------
  // Decimal numbers

  predicate IsDigit(c: char) { '0' <= c <= '9' }

  function Digit(d: nat): (c: char)
    requires d < 10
    ensures IsDigit(c) && c as int - '0' as int == d
  {
    ('0' as int + d) as char
  }

  function NatText(n: nat): (s: string)
    ensures |s| >= 1
    ensures forall c | c in s :: IsDigit(c)
  {
    if n < 10 then [Digit(n)] else NatText(n / 10) + [Digit(n % 10)]
  }

  predicate AllDigits(s: string) { forall c | c in s :: IsDigit(c) }

  function NatValue(s: string): nat
    requires AllDigits(s)
  {
    if s == [] then 0
    else
      assert s[|s| - 1] in s;
      10 * NatValue(s[..|s| - 1]) + (s[|s| - 1] as int - '0' as int)
  }

  lemma {:induction false} NatTextValue(n: nat)
    ensures NatValue(NatText(n)) == n
  {
    if n < 10 {
      assert NatText(n)[..0] == [];
    } else {
      NatTextValue(n / 10);
      assert NatText(n)[..|NatText(n)| - 1] == NatText(n / 10);
    }
  }

  function IntText(i: int): (s: string)
    ensures |s| >= 1
    ensures forall c | c in s :: IsDigit(c) || c == '-'
  {
    if i < 0 then "-" + NatText(-i) else NatText(i)
  }

  /** `int(text)` on ASCII text: an optional sign and at least one digit. */
  function ParseInt(s: string): Option<int> {
    if s == [] then None
    else if s[0] == '-' || s[0] == '+' then
      if s[1..] != [] && AllDigits(s[1..]) then
        var n: int := NatValue(s[1..]);
        Some(if s[0] == '-' then -n else n)
      else None
    else if AllDigits(s) then Some(NatValue(s)) else None
  }

  function Zeros(n: nat): string { seq(n, _ => '0') }

  lemma NextDigit(v: nat, last: char)
    requires IsDigit(last)
    ensures var n := 10 * v + (last as int - '0' as int);
            NatText(n) == if v == 0 then [last] else NatText(v) + [last]
  {
    var d := last as int - '0' as int;
    var n := 10 * v + d;
    assert n / 10 == v && n % 10 == d && Digit(d) == last;
  }

  /** The digits of `n`, with zeros before them if wanted. */
  ghost predicate IsNatText(s: string, n: nat) { exists z: nat :: s == Zeros(z) + NatText(n) }

  lemma OneMoreDigit(t: string, v: nat, last: char)
    requires IsDigit(last) && IsNatText(t, v)
    ensures IsNatText(t + [last], 10 * v + (last as int - '0' as int))
  {
    var z: nat :| t == Zeros(z) + NatText(v);
    NextDigit(v, last);
    var n := 10 * v + (last as int - '0' as int);
    if v == 0 {
      assert NatText(0) == ['0'];
      assert t + [last] == Zeros(z + 1) + NatText(n);
    } else {
      assert t + [last] == Zeros(z) + NatText(n);
    }
  }

  lemma ValueOfMore(t: string, last: char)
    requires AllDigits(t) && IsDigit(last)
    ensures AllDigits(t + [last]) && NatValue(t + [last]) == 10 * NatValue(t) + (last as int - '0' as int)
  {
    assert (t + [last])[..|t|] == t;
  }

  lemma LastDigit(s: string) returns (t: string, last: char)
    requires s != [] && AllDigits(s)
    ensures AllDigits(t) && IsDigit(last) && s == t + [last] && |t| == |s| - 1
  {
    t, last := s[..|s| - 1], s[|s| - 1];
    assert last in s && forall c | c in t :: c in s;
  }

  lemma {:induction false} DigitsRead(s: string)
    requires s != [] && AllDigits(s)
    ensures IsNatText(s, NatValue(s))
    decreases |s|
  {
    var t, last := LastDigit(s);
    ValueOfMore(t, last);
    if t == [] {
      OneDigit(last);
    } else {
      DigitsRead(t);
      OneMoreDigit(t, NatValue(t), last);
    }
  }

  lemma OneDigit(d: char)
    requires IsDigit(d)
    ensures IsNatText([d], NatValue([d]))
  {
    ValueOfMore([], d);
    NextDigit(0, d);
    assert [] + [d] == [d] == Zeros(0) + NatText(NatValue([d]));
  }

  lemma {:induction false} ZerosRead(z: nat, n: nat)
    ensures AllDigits(Zeros(z) + NatText(n)) && NatValue(Zeros(z) + NatText(n)) == n
  {
    var s, t := Zeros(z) + NatText(n), NatText(n);
    if n < 10 {
      assert s[..|s| - 1] == Zeros(z);
      ZerosAreZero(z);
    } else {
      assert s[..|s| - 1] == Zeros(z) + NatText(n / 10);
      ZerosRead(z, n / 10);
    }
  }

  lemma {:induction false} ZerosAreZero(z: nat)
    ensures AllDigits(Zeros(z)) && NatValue(Zeros(z)) == 0
  {
    if z > 0 {
      assert Zeros(z)[..z - 1] == Zeros(z - 1);
      ZerosAreZero(z - 1);
    }
  }

  lemma {:induction false} NatTextIff(s: string, n: nat)
    ensures s != [] && AllDigits(s) && NatValue(s) == n <==> IsNatText(s, n)
  {
    if s != [] && AllDigits(s) && NatValue(s) == n {
      DigitsRead(s);
    }
    if IsNatText(s, n) {
      var z: nat :| s == Zeros(z) + NatText(n);
      ZerosRead(z, n);
    }
  }

  /** A text for an integer: a sign if wanted, zeros if wanted, and its digits. */
  ghost predicate IsIntText(s: string, i: int) {
    if s == [] then false
    else if s[0] == '-' then i <= 0 && IsNatText(s[1..], -i)
    else if s[0] == '+' then i >= 0 && IsNatText(s[1..], i)
    else i >= 0 && IsNatText(s, i)
  }

  /** `int` reads exactly these texts. */
  lemma {:induction false} ParseIntIff(s: string, i: int)
    ensures ParseInt(s) == Some(i) <==> IsIntText(s, i)
  {
    var digits := if s != [] && (s[0] == '-' || s[0] == '+') then s[1..] else s;
    var n: nat := if i < 0 then -i else i;
    NatTextIff(digits, n);
  }

  lemma ParseNatText(n: nat)
    ensures var i: int := n; ParseInt(NatText(n)) == Some(i) && ParseInt("-" + NatText(n)) == Some(-i)
  {
    var t := NatText(n);
    NatTextValue(n);
    assert t[0] in t;
    assert ("-" + t)[1..] == t;
  }

  lemma ParseIntText(i: int)
    ensures ParseInt(IntText(i)) == Some(i)
    ensures Trimmed(IntText(i)) && ',' !in IntText(i) && '|' !in IntText(i)
  {
    if i < 0 {
      ParseNatText(-i);
    } else {
      ParseNatText(i);
    }
    IntTextTrimmed(i);
  }

  lemma IntTextTrimmed(i: int)
    ensures Trimmed(IntText(i)) && ',' !in IntText(i) && '|' !in IntText(i)
  {
    var t := IntText(i);
    assert t[0] in t && t[|t| - 1] in t;
  }

  lemma NatTextInjective(a: nat, b: nat)
    requires NatText(a) == NatText(b)
    ensures a == b
  {
    NatTextValue(a);
    NatTextValue(b);
  }
}

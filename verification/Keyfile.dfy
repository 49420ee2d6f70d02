/** The values `migrate.py` writes into a NetworkManager keyfile, and the reader
    that takes them out again. An SSID is the string of its UTF-8 bytes, one
    character below 256 for each. */
module Keyfile {
  import opened Text

  predicate Printable(c: char) { 0x20 <= c as int <= 0x7e }

  predicate Hex(c: char) { '0' <= c <= '9' || 'A' <= c <= 'F' || 'a' <= c <= 'f' }

  /** What a pattern ending in `$` has to match: Python lets one final newline
      stand after it. */
  function Chomped(s: string): string {
    if s != [] && s[|s| - 1] == '\n' then s[..|s| - 1] else s
  }

  predicate PrintableMatch(s: string) {
    Chomped(s) != [] && forall c | c in Chomped(s) :: Printable(c)
  }

  predicate PskValid(psk: string) {
    || (|Chomped(psk)| == 64 && forall c | c in Chomped(psk) :: Hex(c))
    || (8 <= |psk| <= 63 && PrintableMatch(psk))
  }

  /** The PSKs that pass: 64 hexadecimal digits, or 8 to 63 printable characters. `$` lets
      one more newline stand at the end, which only the second rule counts. */
  lemma PskPasses(text: string)
    ensures var hex := |text| == 64 && forall c | c in text ::
              '0' <= c <= '9' || 'a' <= c <= 'f' || 'A' <= c <= 'F';
            var printable := forall c | c in text :: ' ' <= c <= '~';
            && (text == [] || text[|text| - 1] != '\n' ==>
                  (PskValid(text) <==> hex || (8 <= |text| <= 63 && printable)))
            && (PskValid(text + "\n") <==> hex || (8 <= |text| + 1 <= 63 && printable))
  {
    assert Chomped(text + "\n") == text;
  }

  // -------------------------------------------------------------------
  // Writing

  /** `s.replace(c, by)` for one character c. */
  function Replaced(s: string, c: char, sub: string): string {
    if s == [] then [] else (if s[0] == c then sub else [s[0]]) + Replaced(s[1..], c, sub)
  }

  function Lead(s: string): (n: nat)
    ensures n <= |s|
  {
    if s != [] && s[0] == ' ' then 1 + Lead(s[1..]) else 0
  }

  function Times(n: nat, s: string): string {
    if n == 0 then [] else s + Times(n - 1, s)
  }

  function EscapePsk(psk: string): string {
    var v := Replaced(psk, '\\', "\\\\");
    Times(Lead(v), "\\s") + v[Lead(v)..]
  }

  predicate StringForm(ssid: string) {
    && PrintableMatch(ssid)
    && '\\' !in ssid && ssid[0] != ' ' && ssid[|ssid| - 1] != ' '
  }

  function ByteText(ssid: string): string {
    if ssid == [] then [] else NatText(ssid[0] as int) + ";" + ByteText(ssid[1..])
  }

  predicate SsidValid(ssid: string) {
    1 <= |ssid| <= 32 && '\0' !in ssid
  }

  function NmSsid(ssid: string): Option<string> {
    if !SsidValid(ssid) then None
    else if StringForm(ssid) then Some(Replaced(ssid, ';', "\\\\;"))
    else Some(ByteText(ssid))
  }

  // -------------------------------------------------------------------
  // Reading

  function FirstLine(text: string): string {
    if text == [] || text[0] == '\n' then [] else [text[0]] + FirstLine(text[1..])
  }

  function SkipBlanks(s: string): string {
    if s != [] && (s[0] == ' ' || 0x09 <= s[0] as int <= 0x0d) then SkipBlanks(s[1..]) else s
  }

  function EscapeOf(c: char): Option<char> {
    if c == 's' then Some(' ') else if c == 'n' then Some('\n') else if c == 't' then Some('\t')
    else if c == 'r' then Some('\r') else if c == '\\' then Some('\\') else None
  }

  /** None for an escape the specification does not list. */
  function Unescaped(s: string): Option<string> {
    if s == [] then Some([])
    else if s[0] != '\\' then
      var rest := Unescaped(s[1..]);
      if rest.None? then None else Some([s[0]] + rest.value)
    else if |s| == 1 || EscapeOf(s[1]).None? then None
    else
      var rest := Unescaped(s[2..]);
      if rest.None? then None else Some([EscapeOf(s[1]).value] + rest.value)
  }

  /** What a reader finds behind `key=` when `text` was written there. */
  function ReadValue(text: string): Option<string> {
    Unescaped(SkipBlanks(FirstLine(text)))
  }

  predicate ShortNumber(s: string) { 1 <= |s| <= 3 && AllDigits(s) }

  predicate IsByteForm(raw: string) {
    var parts := Split(Chomped(raw), ';');
    && |parts| >= 2 && parts[|parts| - 1] == []
    && forall i | 0 <= i < |parts| - 1 :: ShortNumber(parts[i])
  }

  function BytesOf(parts: seq<string>): Option<string> {
    if parts == [] then Some([])
    else
      var rest := BytesOf(parts[1..]);
      if parts[0] == [] then rest
      else if !AllDigits(parts[0]) || NatValue(parts[0]) > 255 || rest.None? then None
      else Some([NatValue(parts[0]) as char] + rest.value)
  }

  function Unquoted(s: string): string {
    if s == [] then []
    else if |s| >= 2 && s[0] == '\\' && s[1] == ';' then ";" + Unquoted(s[2..])
    else [s[0]] + Unquoted(s[1..])
  }

  function SsidOf(raw: string): Option<string> {
    if IsByteForm(raw) then BytesOf(Split(raw, ';')) else Some(Unquoted(raw))
  }

  function ReadSsid(text: string): Option<string> {
    var raw := ReadValue(text);
    if raw.None? then None else SsidOf(raw.value)
  }

  /** The reader drops blanks in front, all of them and nothing else. */
  lemma {:induction false} BlanksSkipped(s: string) returns (blanks: string)
    ensures s == blanks + SkipBlanks(s) && forall c | c in blanks :: c == ' ' || 9 <= c as int <= 13
    ensures var rest := SkipBlanks(s); rest != [] ==> rest[0] != ' ' && !(9 <= rest[0] as int <= 13)
  {
    blanks := [];
    if s != [] && (s[0] == ' ' || 9 <= s[0] as int <= 13) {
      var more := BlanksSkipped(s[1..]);
      blanks := [s[0]] + more;
      assert s == [s[0]] + s[1..];
    }
  }

  /** Each number with its semicolon, one after the other. */
  function Listed(numbers: seq<string>): string {
    if numbers == [] then [] else numbers[0] + ";" + Listed(numbers[1..])
  }

  lemma {:induction false} JoinIsListed(numbers: seq<string>)
    ensures Join(numbers + [[]], ';') == Listed(numbers)
  {
    if numbers == [] {
      assert numbers + [[]] == [[]];
    } else {
      assert (numbers + [[]])[1..] == numbers[1..] + [[]];
      JoinIsListed(numbers[1..]);
    }
  }

  ghost predicate IsNumberList(t: string, numbers: seq<string>) {
    numbers != [] && t == Listed(numbers) && forall n | n in numbers :: 1 <= |n| <= 3 && AllDigits(n)
  }

  lemma {:induction false} NumbersOf(raw: string) returns (numbers: seq<string>)
    requires IsByteForm(raw)
    ensures IsNumberList(Chomped(raw), numbers)
  {
    var parts := Split(Chomped(raw), ';');
    numbers := parts[..|parts| - 1];
    JoinSplit(Chomped(raw), ';');
    assert parts == numbers + [[]];
    JoinIsListed(numbers);
  }

  lemma {:induction false} NumbersSplit(numbers: seq<string>)
    requires forall n | n in numbers :: AllDigits(n)
    ensures Split(Listed(numbers), ';') == numbers + [[]]
  {
    JoinIsListed(numbers);
    forall p | p in numbers + [[]] ensures ';' !in p {
      assert p in numbers || p == [];
    }
    SplitJoin(numbers + [[]], ';');
  }

  /** The byte form is one or more numbers of one to three digits, each with a semicolon. */
  lemma {:induction false} ByteFormIs(raw: string)
    ensures IsByteForm(raw) <==> exists numbers :: IsNumberList(Chomped(raw), numbers)
  {
    if IsByteForm(raw) {
      var numbers := NumbersOf(raw);
    }
    if numbers :| IsNumberList(Chomped(raw), numbers) {
      NumbersSplit(numbers);
    }
  }

  /** Its numbers are the bytes, if all of them are. */
  lemma {:induction false} BytesAre(numbers: seq<string>)
    requires forall n | n in numbers :: n != [] && AllDigits(n)
    ensures BytesOf(numbers + [[]]).Some? <==> forall n | n in numbers :: NatValue(n) < 256
    ensures var bytes := BytesOf(numbers + [[]]);
            bytes.Some? ==> |bytes.value| == |numbers|
                            && forall i | 0 <= i < |numbers| :: bytes.value[i] as int == NatValue(numbers[i])
  {
    if numbers == [] {
      assert (numbers + [[]])[1..] == [];
    } else {
      var rest := numbers[1..];
      assert (numbers + [[]])[1..] == rest + [[]] && numbers == [numbers[0]] + rest;
      forall n | n in rest ensures n in numbers {}
      BytesAre(rest);
    }
  }

  // -------------------------------------------------------------------
  // The reader against single writers

  lemma {:induction false} FirstLineOf(a: string, b: string)
    requires '\n' !in a && (b == [] || b[0] == '\n')
    ensures FirstLine(a + b) == a
  {
    if a != [] {
      assert (a + b)[1..] == a[1..] + b;
      FirstLineOf(a[1..], b);
    }
  }

  lemma {:induction false} ReplacedConcat(a: string, b: string, c: char, sub: string)
    ensures Replaced(a + b, c, sub) == Replaced(a, c, sub) + Replaced(b, c, sub)
  {
    if a == [] {
      assert a + b == b;
    } else {
      assert (a + b)[1..] == a[1..] + b;
      ReplacedConcat(a[1..], b, c, sub);
    }
  }

  lemma {:induction false} ReplacedChars(s: string, c: char, sub: string, x: char)
    ensures x in Replaced(s, c, sub) ==> x in s || x in sub
  {
    if s != [] {
      ReplacedChars(s[1..], c, sub, x);
    }
  }

  lemma {:induction false} UnescapedPlain(s: string)
    requires '\\' !in s
    ensures Unescaped(s) == Some(s)
  {
    if s != [] {
      UnescapedPlain(s[1..]);
      assert [s[0]] + s[1..] == s;
    }
  }

  /** Text with every character that has an escape written as that escape. */
  function Escaped(s: string): string {
    if s == [] then []
    else
      (match s[0]
       case ' ' => "\\s"
       case '\n' => "\\n"
       case '\t' => "\\t"
       case '\r' => "\\r"
       case '\\' => "\\\\"
       case c => [c])
      + Escaped(s[1..])
  }

  /** The reader knows each escape, and no other. */
  lemma {:induction false} EscapesRead(s: string)
    ensures Unescaped(Escaped(s)) == Some(s)
  {
    if s != [] {
      EscapesRead(s[1..]);
      var rest := Escaped(s[1..]);
      assert s == [s[0]] + s[1..];
      if s[0] in " \n\t\r\\" {
        assert Escaped(s)[2..] == rest;
      } else {
        assert Escaped(s)[1..] == rest;
      }
    }
  }

  lemma OtherEscapesFail(c: char, rest: string)
    requires c !in "sntr\\"
    ensures Unescaped(['\\', c] + rest).None? && Unescaped("\\").None?
  {
    assert 's' in "sntr\\" && 'n' in "sntr\\" && 't' in "sntr\\" && 'r' in "sntr\\" && '\\' in "sntr\\";
  }

  lemma {:induction false} UnescapedDoubled(s: string)
    ensures Unescaped(Replaced(s, '\\', "\\\\")) == Some(s)
  {
    if s != [] {
      var t := Replaced(s[1..], '\\', "\\\\");
      UnescapedDoubled(s[1..]);
      if s[0] == '\\' {
        assert ("\\\\" + t)[2..] == t;
      }
      assert [s[0]] + s[1..] == s;
    }
  }

  lemma {:induction false} UnescapedPsk(s: string)
    ensures Unescaped(EscapePsk(s)) == Some(s)
  {
    if s != [] && s[0] == ' ' {
      UnescapedPsk(s[1..]);
      EscapeSpace(s);
      assert EscapePsk(s)[2..] == EscapePsk(s[1..]);
      assert [' '] + s[1..] == s;
    } else {
      EscapeNoSpace(s);
      UnescapedDoubled(s);
    }
  }

  lemma EscapeSpace(s: string)
    requires s != [] && s[0] == ' '
    ensures EscapePsk(s) == "\\s" + EscapePsk(s[1..])
  {
    var v, w := Replaced(s, '\\', "\\\\"), Replaced(s[1..], '\\', "\\\\");
    var n := Lead(w);
    assert v == [' '] + w && v[1..] == w && Lead(v) == n + 1;
    assert v[n + 1..] == w[n..];
    assert Times(n + 1, "\\s") == "\\s" + Times(n, "\\s");
  }

  lemma EscapeNoSpace(s: string)
    requires s == [] || s[0] != ' '
    ensures EscapePsk(s) == Replaced(s, '\\', "\\\\")
  {
    assert Lead(Replaced(s, '\\', "\\\\")) == 0;
  }

  lemma {:induction false} TimesChars(n: nat, s: string, x: char)
    ensures x in Times(n, s) ==> x in s
  {
    if n > 0 {
      TimesChars(n - 1, s, x);
    }
  }

  lemma {:induction false} LeadStops(s: string)
    ensures Lead(s) == |s| || s[Lead(s)] != ' '
  {
    if s != [] && s[0] == ' ' {
      LeadStops(s[1..]);
    }
  }

  /** An escaped PSK of printable characters stands on one line and starts with no
      blank for the reader to drop. */
  lemma EscapedStays(s: string)
    requires forall c | c in s :: Printable(c)
    ensures '\n' !in EscapePsk(s) && SkipBlanks(EscapePsk(s)) == EscapePsk(s)
  {
    var v := Replaced(s, '\\', "\\\\");
    forall x | x in v
      ensures Printable(x)
    {
      ReplacedChars(s, '\\', "\\\\", x);
    }
    TimesChars(Lead(v), "\\s", '\n');
    LeadStops(v);
    assert forall x | x in v[Lead(v)..] :: x in v;
    assert Lead(v) > 0 ==> Times(Lead(v), "\\s")[0] == '\\';
    if Lead(v) == 0 && v != [] {
      assert EscapePsk(s)[0] == v[0] && v[0] in v;
    }
  }

  lemma {:induction false} LeadConcat(a: string, b: string)
    requires b == [] || b[0] != ' '
    ensures Lead(a + b) == Lead(a)
  {
    if a == [] {
      assert a + b == b;
    } else {
      assert (a + b)[1..] == a[1..] + b;
      LeadConcat(a[1..], b);
    }
  }

  lemma EscapeWithNewline(s: string)
    ensures EscapePsk(s + "\n") == EscapePsk(s) + "\n"
  {
    ReplacedConcat(s, "\n", '\\', "\\\\");
    assert "\n"[1..] == [];
    assert Replaced("\n", '\\', "\\\\") == "\n";
    LeadConcat(Replaced(s, '\\', "\\\\"), "\n");
  }

  /** The reader gives a valid PSK back without the newline `$` let through. */
  lemma PskReadsChomped(psk: string)
    requires PskValid(psk)
    ensures ReadValue(EscapePsk(psk)) == Some(Chomped(psk))
  {
    var s := Chomped(psk);
    assert forall c | c in s :: Printable(c);
    EscapedStays(s);
    UnescapedPsk(s);
    if s == psk {
      FirstLineOf(EscapePsk(s), []);
      assert EscapePsk(s) + [] == EscapePsk(s);
    } else {
      assert psk == s + "\n";
      EscapeWithNewline(s);
      FirstLineOf(EscapePsk(s), "\n");
    }
  }

  /** A PSK the check lets through is read back unchanged exactly when it has no
      newline. */
  lemma PskRoundTrip(psk: string)
    requires PskValid(psk)
    ensures ReadValue(EscapePsk(psk)) == Some(psk) <==> '\n' !in psk
  {
    PskReadsChomped(psk);
    if psk == Chomped(psk) {
      assert forall c | c in psk :: Printable(c);
    } else {
      assert psk[|psk| - 1] in psk;
    }
  }

  // -------------------------------------------------------------------
  // The byte form

  lemma ByteNumber(n: nat)
    requires n < 256
    ensures ShortNumber(NatText(n)) && NatValue(NatText(n)) == n
  {
    NatTextValue(n);
    assert n >= 10 ==> |NatText(n)| == |NatText(n / 10)| + 1;
    assert n >= 100 ==> |NatText(n / 10)| == |NatText(n / 100)| + 1;
  }

  predicate Bytes(s: string) { forall c | c in s :: c as int < 256 }

  function ByteParts(s: string): seq<string> {
    if s == [] then [[]] else [NatText(s[0] as int)] + ByteParts(s[1..])
  }

  lemma {:induction false} ByteTextParts(s: string)
    ensures Split(ByteText(s), ';') == ByteParts(s)
  {
    if s != [] {
      ByteTextParts(s[1..]);
      SplitNone(NatText(s[0] as int), ';');
      SplitAt(NatText(s[0] as int), ByteText(s[1..]), ';');
    }
  }

  lemma {:induction false} ByteNumbers(s: string)
    requires Bytes(s)
    ensures var parts := ByteParts(s);
            && |parts| == |s| + 1 && parts[|s|] == []
            && (forall i | 0 <= i < |s| :: ShortNumber(parts[i]))
            && BytesOf(parts) == Some(s)
  {
    if s != [] {
      var n := s[0] as int;
      assert s[0] in s;
      assert forall c | c in s[1..] :: c in s;
      ByteNumber(n);
      ByteNumbers(s[1..]);
      assert ByteParts(s)[1..] == ByteParts(s[1..]);
      assert [s[0]] + s[1..] == s;
    }
  }

  lemma {:induction false} ByteTextChars(s: string, c: char)
    requires c in ByteText(s)
    ensures IsDigit(c) || c == ';'
  {
    if c !in NatText(s[0] as int) && c != ';' {
      ByteTextChars(s[1..], c);
    }
  }

  /** The byte form has no blank, no escape and no newline. */
  lemma ByteTextRead(s: string)
    requires Bytes(s) && s != []
    ensures ReadValue(ByteText(s)) == Some(ByteText(s))
  {
    var t := ByteText(s);
    forall c | c in t ensures IsDigit(c) || c == ';' {
      ByteTextChars(s, c);
    }
    FirstLineOf(t, []);
    assert t + [] == t;
    assert t[0] in t;
    assert SkipBlanks(t) == t;
    UnescapedPlain(t);
  }

  lemma ByteTextIsForm(s: string)
    requires Bytes(s) && s != []
    ensures IsByteForm(ByteText(s))
  {
    var t := ByteText(s);
    ByteTextParts(s);
    ByteNumbers(s);
    assert t[|t| - 1] in t;
    ByteTextChars(s, t[|t| - 1]);
    assert Chomped(t) == t;
  }

  lemma ByteTextMeans(s: string)
    requires Bytes(s) && s != []
    ensures SsidOf(ByteText(s)) == Some(s)
  {
    ByteTextIsForm(s);
    ByteTextParts(s);
    ByteNumbers(s);
  }

  lemma ByteFormReads(s: string)
    requires Bytes(s) && s != []
    ensures ReadSsid(ByteText(s)) == Some(s)
  {
    ByteTextRead(s);
    ByteTextMeans(s);
  }

  // -------------------------------------------------------------------
  // The string form

  lemma UnescapedSemicolon(t: string, u: string)
    requires Unescaped(t) == Some(u)
    ensures Unescaped("\\\\;" + t) == Some("\\;" + u)
  {
    assert (";" + t)[1..] == t;
    assert ("\\\\;" + t)[2..] == ";" + t;
    assert "\\" + (";" + u) == "\\;" + u;
  }

  lemma {:induction false} UnescapedString(s: string)
    requires '\\' !in s
    ensures Unescaped(Replaced(s, ';', "\\\\;")) == Some(Replaced(s, ';', "\\;"))
  {
    if s != [] {
      var t, u := Replaced(s[1..], ';', "\\\\;"), Replaced(s[1..], ';', "\\;");
      UnescapedString(s[1..]);
      if s[0] == ';' {
        UnescapedSemicolon(t, u);
      } else {
        assert ([s[0]] + t)[1..] == t;
      }
    }
  }

  lemma {:induction false} UnquotedString(s: string)
    requires '\\' !in s
    ensures Unquoted(Replaced(s, ';', "\\;")) == s
  {
    if s != [] {
      var t := Replaced(s[1..], ';', "\\;");
      UnquotedString(s[1..]);
      if s[0] == ';' {
        assert ("\\;" + t)[2..] == t;
      }
    }
  }

  /** A part of a quoted string before a `;` ends in a backslash. */
  lemma {:induction false} QuotedParts(s: string)
    requires '\\' !in s
    ensures var parts := Split(Replaced(s, ';', "\\;"), ';');
            |parts| >= 2 ==> '\\' in parts[0]
  {
    if s != [] {
      var t := Replaced(s[1..], ';', "\\;");
      QuotedParts(s[1..]);
      if s[0] == ';' {
        assert "\\;" + t == "\\" + [';'] + t;
        SplitAt("\\", t, ';');
        SplitNone("\\", ';');
      } else {
        assert ([s[0]] + t)[1..] == t;
      }
    }
  }

  /** No SSID written as a string is taken for a list of bytes. */
  lemma StringFormNeverBytes(s: string)
    requires StringForm(s)
    ensures ReadValue(NmSsid(s).value).Some? <== NmSsid(s).Some?
    ensures NmSsid(s).Some? ==> !IsByteForm(ReadValue(NmSsid(s).value).value)
  {
    if NmSsid(s).Some? {
      var t := Chomped(s);
      StringFormRaw(s);
      QuotedParts(t);
      var q := Replaced(t, ';', "\\;");
      ReplacedChars(t, ';', "\\;", '\n');
      assert q != [] ==> q[|q| - 1] in q;
      assert Chomped(q) == q;
      assert |Split(q, ';')| >= 2 ==> !ShortNumber(Split(q, ';')[0]);
    }
  }

  /** What the keyfile layer makes of a string-form SSID. */
  lemma StringFormRaw(s: string)
    requires StringForm(s)
    ensures var t := Chomped(s);
            '\n' !in t && '\\' !in t
            && ReadValue(Replaced(s, ';', "\\\\;")) == Some(Replaced(t, ';', "\\;"))
  {
    var t := Chomped(s);
    assert '\n' !in t && '\\' !in t && s[0] == t[0] && t[0] in t;
    var w := Replaced(t, ';', "\\\\;");
    ReplacedChars(t, ';', "\\\\;", '\n');
    if s == t {
      FirstLineOf(w, []);
      assert w + [] == w;
    } else {
      assert s == t + "\n";
      ReplacedConcat(t, "\n", ';', "\\\\;");
      assert "\n"[1..] == [];
      assert Replaced("\n", ';', "\\\\;") == "\n";
      FirstLineOf(w, "\n");
    }
    assert w[0] == t[0] || w[0] == '\\';
    assert SkipBlanks(w) == w;
    UnescapedString(t);
  }

  // -------------------------------------------------------------------
  // Plain text stays as it is

  lemma {:induction false} ReplacedNone(s: string, c: char, sub: string)
    requires c !in s
    ensures Replaced(s, c, sub) == s
  {
    if s != [] {
      ReplacedNone(s[1..], c, sub);
      assert [s[0]] + s[1..] == s;
    }
  }

  /** Printable text is written unchanged where it needs no escape: a PSK without
      backslash and leading blank; an SSID also without final blank and `;`. */
  lemma PlainStays(s: string)
    requires s != [] && forall c | c in s :: Printable(c)
    ensures '\\' !in s && s[0] != ' ' ==> EscapePsk(s) == s
    ensures |s| <= 32 && '\\' !in s && ';' !in s && s[0] != ' ' && s[|s| - 1] != ' ' ==> NmSsid(s) == Some(s)
  {
    if '\\' !in s && s[0] != ' ' {
      EscapeNoSpace(s);
      ReplacedNone(s, '\\', "\\\\");
    }
    assert s[|s| - 1] in s && !Printable('\0') && Chomped(s) == s;
    if ';' !in s {
      ReplacedNone(s, ';', "\\\\;");
    }
  }

  // -------------------------------------------------------------------
  // Round trip

  /** How an SSID is written: not at all if it is empty, longer than 32 bytes or has a NUL;
      as text if it is printable without backslash and outer blank, up to one final
      newline; else as its bytes in decimal, each with a semicolon. */
  lemma {:induction false} SsidForm(ssid: string)
    ensures NmSsid(ssid).None? <==> |ssid| == 0 || |ssid| > 32 || '\0' in ssid
    ensures var text := if ssid != [] && ssid[|ssid| - 1] == '\n' then ssid[..|ssid| - 1] else ssid;
            var plain := && text != [] && (forall c | c in text :: ' ' <= c <= '~' && c != '\\')
                         && text[0] != ' ' && (text == ssid ==> text[|text| - 1] != ' ');
            NmSsid(ssid).Some? ==>
              NmSsid(ssid).value == if plain then Replaced(ssid, ';', "\\\\;") else ByteText(ssid)
  {
    var text := Chomped(ssid);
    if text != [] {
      assert text[0] == ssid[0] && text[0] in text && text[|text| - 1] in text;
      assert forall c :: c in ssid <==> c in text || (text != ssid && c == '\n');
    }
  }

  /** The SSIDs that do not survive: a final newline behind text that would have
      been written as a string without it. */
  predicate LosesNewline(ssid: string) {
    && |ssid| >= 2 && ssid[|ssid| - 1] == '\n' && ssid[0] != ' '
    && forall c | c in ssid[..|ssid| - 1] :: Printable(c) && c != '\\'
  }

  lemma LosingIsString(ssid: string)
    requires LosesNewline(ssid)
    ensures StringForm(ssid)
  {
    var t := ssid[..|ssid| - 1];
    assert Chomped(ssid) == t;
    assert forall c | c in ssid :: c in t || c == '\n';
  }

  lemma SsidRoundTrip(ssid: string)
    requires SsidValid(ssid) && Bytes(ssid)
    ensures NmSsid(ssid).Some?
    ensures ReadSsid(NmSsid(ssid).value) == Some(ssid) <==> !LosesNewline(ssid)
  {
    if StringForm(ssid) {
      StringFormNeverBytes(ssid);
      StringFormRaw(ssid);
      UnquotedString(Chomped(ssid));
      if ssid == Chomped(ssid) {
        assert ssid[|ssid| - 1] in ssid;
      }
    } else {
      ByteFormReads(ssid);
      if LosesNewline(ssid) {
        LosingIsString(ssid);
      }
    }
  }

  /** Every SSID without newline and NUL, of 1 to 32 bytes, survives. */
  lemma SsidSurvives(ssid: string)
    requires SsidValid(ssid) && Bytes(ssid) && '\n' !in ssid
    ensures ReadSsid(NmSsid(ssid).value) == Some(ssid)
  {
    SsidRoundTrip(ssid);
    assert ssid[|ssid| - 1] in ssid;
  }
}

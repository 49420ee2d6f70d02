/** CSV lines, the records parsed from them, and the string hashed into `event_id`.
    The parser here is the watcher's; module Cursor has the web server's copy. */
module Records {
  import opened Text

  type Id = string

  /** A record as the child publishes it. SHA-1 is taken to be injective on the
      strings it is given, so `eventId` is the hashed string itself. */
  datatype Record = Record(
    eventId: Id, mkDate: string, sta1: string, sta2: string, sta3: string, t1: int, device: string)

  predicate IsMkDate(s: string) {
    |s| == 14 && AllDigits(s)
  }

  function Fields(mkDate: string, sta1: string, sta2: string, sta3: string, t1: int): seq<string> {
    [mkDate, sta1, sta2, sta3, IntText(t1)]
  }

  function HashInput(device: string, mkDate: string, sta1: string, sta2: string, sta3: string, t1: int): string {
    device + "|" + Join(Fields(mkDate, sta1, sta2, sta3, t1), ',')
  }

  function StripAll(parts: seq<string>): (r: seq<string>)
    ensures |r| == |parts|
    ensures forall i | 0 <= i < |r| :: r[i] == Strip(parts[i])
  {
    if parts == [] then [] else [Strip(parts[0])] + StripAll(parts[1..])
  }

  function ParseLine(line: string, device: string): Option<Record> {
    var parts := StripAll(Split(Strip(line), ','));
    if |parts| != 5 || parts[0] == [] then None
    else if !IsMkDate(parts[0]) then None
    else
      match ParseInt(parts[4])
      case None => None
      case Some(t1) =>
        Some(Record(HashInput(device, parts[0], parts[1], parts[2], parts[3], t1),
                    parts[0], parts[1], parts[2], parts[3], t1, device))
  }

  /** The CSV line a record stands for. */
  function PrintLine(r: Record): string {
    Join(Fields(r.mkDate, r.sta1, r.sta2, r.sta3, r.t1), ',')
  }

  predicate IsStation(s: string) {
    Trimmed(s) && ',' !in s
  }

  /** What the parsers accept. */
  predicate Valid(r: Record) {
    && IsMkDate(r.mkDate)
    && IsStation(r.sta1) && IsStation(r.sta2) && IsStation(r.sta3)
    && r.eventId == HashInput(r.device, r.mkDate, r.sta1, r.sta2, r.sta3, r.t1)
  }

  lemma FieldsHaveNoComma(r: Record)
    requires Valid(r)
    ensures forall p | p in Fields(r.mkDate, r.sta1, r.sta2, r.sta3, r.t1) :: ',' !in p && Trimmed(p)
  {
    ParseIntText(r.t1);
    assert r.mkDate[0] in r.mkDate && r.mkDate[13] in r.mkDate;
  }

  lemma ParsedIsValid(line: string, device: string)
    ensures ParseLine(line, device).Some? ==>
              Valid(ParseLine(line, device).value) && ParseLine(line, device).value.device == device
  {
    var raw := Split(Strip(line), ',');
    JoinSplit(Strip(line), ',');
    forall i | 0 <= i < |raw|
      ensures IsStation(StripAll(raw)[i])
    {
      StripTrims(raw[i]);
      StripChars(raw[i], ',');
      assert raw[i] in raw;
    }
  }

  lemma JoinEnds(parts: seq<string>, sep: char)
    requires |parts| >= 2 && parts[0] != [] && parts[|parts| - 1] != []
    ensures var j := Join(parts, sep);
            j != [] && j[0] == parts[0][0] && j[|j| - 1] == parts[|parts| - 1][|parts[|parts| - 1]| - 1]
  {
    if |parts| > 2 {
      if parts[1] != [] {
        JoinEnds(parts[1..], sep);
      } else {
        JoinLast(parts[1..], sep);
      }
    }
  }

  lemma {:induction false} JoinLast(parts: seq<string>, sep: char)
    requires |parts| >= 1 && parts[|parts| - 1] != []
    ensures var j := Join(parts, sep);
            j != [] && j[|j| - 1] == parts[|parts| - 1][|parts[|parts| - 1]| - 1]
  {
    if |parts| > 1 {
      JoinLast(parts[1..], sep);
    }
  }

  /** Printing a record as CSV and parsing the line gives the record back. */
  lemma PrintThenParse(r: Record)
    requires Valid(r)
    ensures ParseLine(PrintLine(r), r.device) == Some(r)
  {
    var parts := Fields(r.mkDate, r.sta1, r.sta2, r.sta3, r.t1);
    FieldsHaveNoComma(r);
    ParseIntText(r.t1);
    JoinEnds(parts, ',');
    StripTrims(PrintLine(r));
    assert Trimmed(PrintLine(r)) by {
      assert parts[0] in parts && parts[4] in parts;
    }
    SplitJoin(parts, ',');
    forall i | 0 <= i < 5
      ensures Strip(parts[i]) == parts[i]
    {
      assert parts[i] in parts;
      StripTrims(parts[i]);
    }
    assert StripAll(parts) == parts;
  }

  /** So a record is accepted exactly when some CSV line parses to it. */
  lemma ValidIffParsed(r: Record)
    ensures Valid(r) <==> exists line :: ParseLine(line, r.device) == Some(r)
  {
    if Valid(r) {
      PrintThenParse(r);
    }
    if line :| ParseLine(line, r.device) == Some(r) {
      ParsedIsValid(line, r.device);
    }
  }

  lemma HashInputSplit(r: Record)
    requires Valid(r)
    ensures Split(r.eventId, ',') ==
            Split(r.device + "|" + r.mkDate, ',') + [r.sta1, r.sta2, r.sta3, IntText(r.t1)]
  {
    FieldsHaveNoComma(r);
    var head := r.device + "|" + r.mkDate;
    var tail := [r.sta1, r.sta2, r.sta3, IntText(r.t1)];
    var all := Fields(r.mkDate, r.sta1, r.sta2, r.sta3, r.t1);
    assert all[1..] == tail;
    forall p | p in tail ensures ',' !in p {
      assert p in all;
    }
    SplitJoin(tail, ',');
    SplitAt(head, Join(tail, ','), ',');
    assert r.eventId == head + [','] + Join(tail, ',');
  }

  // -------------------------------------------------------------------
  // Which lines parse, and to what

  lemma StripAllSame(a: seq<string>, b: seq<string>)
    requires |a| == |b| && forall i | 0 <= i < |a| :: Strip(a[i]) == Strip(b[i])
    ensures StripAll(a) == StripAll(b)
  {
    var x, y := StripAll(a), StripAll(b);
    assert forall i | 0 <= i < |x| :: x[i] == y[i];
  }

  lemma PadFirst(parts: seq<string>, a: string)
    requires parts != [] && AllSpace(a)
    ensures StripAll([a + parts[0]] + parts[1..]) == StripAll(parts)
  {
    StripPadding(a, parts[0], []);
    assert a + parts[0] + [] == a + parts[0];
    var all := [a + parts[0]] + parts[1..];
    assert forall i | 0 < i < |parts| :: all[i] == parts[i];
    StripAllSame(all, parts);
  }

  lemma {:induction false} StripAllLast(parts: seq<string>, last: string)
    ensures StripAll(parts + [last]) == StripAll(parts) + [Strip(last)]
  {
    if parts == [] {
      assert parts + [last] == [last] && [last][1..] == [];
    } else {
      assert (parts + [last])[1..] == parts[1..] + [last];
      StripAllLast(parts[1..], last);
    }
  }

  lemma PadLast(head: seq<string>, last: string, b: string)
    requires AllSpace(b)
    ensures StripAll(head + [last + b]) == StripAll(head + [last])
  {
    StripPadding([], last, b);
    assert [] + last + b == last + b;
    StripAllLast(head, last + b);
    StripAllLast(head, last);
  }

  lemma PadFront(a: string, s: string)
    requires AllSpace(a)
    ensures StripAll(Split(a + s, ',')) == StripAll(Split(s, ','))
  {
    assert ',' !in a;
    SplitPrefix(a, s, ',');
    PadFirst(Split(s, ','), a);
  }

  lemma PadLastOf(parts: seq<string>, b: string)
    requires parts != [] && AllSpace(b)
    ensures StripAll(LastLonger(parts, b)) == StripAll(parts)
  {
    var head, last := parts[..|parts| - 1], parts[|parts| - 1];
    assert parts == head + [last] && LastLonger(parts, b) == head + [last + b];
    PadLast(head, last, b);
  }

  lemma PadBack(s: string, b: string)
    requires AllSpace(b)
    ensures StripAll(Split(s + b, ',')) == StripAll(Split(s, ','))
  {
    assert ',' !in b;
    SplitSuffix(s, b, ',');
    PadLastOf(Split(s, ','), b);
  }

  /** Stripping the line first makes no difference. */
  lemma {:induction false} StripFirst(line: string)
    ensures StripAll(Split(Strip(line), ',')) == StripAll(Split(line, ','))
  {
    var s := Strip(line);
    StripIff(line, s);
    var a: string, b: string :| AllSpace(a) && AllSpace(b) && line == a + s + b;
    PadFront(a, s);
    PadBack(a + s, b);
  }

  /** The five fields of a line, each with white space around it. */
  ghost predicate IsLineOf(line: string, raw: seq<string>, rec: Record, t1: string) {
    && |raw| == 5 && (forall part | part in raw :: ',' !in part)
    && line == raw[0] + "," + (raw[1] + "," + (raw[2] + "," + (raw[3] + "," + raw[4])))
    && Padded(raw[0], rec.mkDate) && Padded(raw[1], rec.sta1) && Padded(raw[2], rec.sta2) && Padded(raw[3], rec.sta3)
    && Padded(raw[4], t1)
  }

  lemma JoinFive(raw: seq<string>)
    requires |raw| == 5
    ensures Join(raw, ',') == raw[0] + "," + (raw[1] + "," + (raw[2] + "," + (raw[3] + "," + raw[4])))
  {
    assert raw[1..][1..] == raw[2..] && raw[2..][1..] == raw[3..] && raw[3..][1..] == raw[4..];
    assert Join(raw[4..], ',') == raw[4];
    assert Join(raw[3..], ',') == raw[3] + "," + raw[4];
    assert Join(raw[2..], ',') == raw[2] + "," + (raw[3] + "," + raw[4]);
    assert Join(raw[1..], ',') == raw[1] + "," + (raw[2] + "," + (raw[3] + "," + raw[4]));
  }

  lemma SplitFive(raw: seq<string>)
    requires |raw| == 5 && forall part | part in raw :: ',' !in part
    ensures Split(raw[0] + "," + (raw[1] + "," + (raw[2] + "," + (raw[3] + "," + raw[4]))), ',') == raw
  {
    JoinFive(raw);
    SplitJoin(raw, ',');
  }

  lemma FiveParts(line: string, raw: seq<string>, rec: Record, t1: string)
    requires IsLineOf(line, raw, rec, t1)
    requires Trimmed(rec.mkDate) && Trimmed(rec.sta1) && Trimmed(rec.sta2) && Trimmed(rec.sta3) && Trimmed(t1)
    ensures StripAll(Split(line, ',')) == [rec.mkDate, rec.sta1, rec.sta2, rec.sta3, t1]
  {
    SplitFive(raw);
    FiveStripped(raw, [rec.mkDate, rec.sta1, rec.sta2, rec.sta3, t1]);
  }

  lemma FiveStripped(raw: seq<string>, cores: seq<string>)
    requires |raw| == |cores| && forall i | 0 <= i < |raw| :: Padded(raw[i], cores[i]) && Trimmed(cores[i])
    ensures StripAll(raw) == cores
  {
    forall i | 0 <= i < |raw| ensures StripAll(raw)[i] == cores[i] {
      StripIff(raw[i], cores[i]);
    }
  }

  lemma PartsOfLine(line: string, rec: Record, t1: string) returns (raw: seq<string>)
    requires StripAll(Split(line, ',')) == [rec.mkDate, rec.sta1, rec.sta2, rec.sta3, t1]
    ensures IsLineOf(line, raw, rec, t1) && Trimmed(t1)
    ensures Trimmed(rec.mkDate) && Trimmed(rec.sta1) && Trimmed(rec.sta2) && Trimmed(rec.sta3)
  {
    raw := Split(line, ',');
    JoinSplit(line, ',');
    JoinFive(raw);
    var parts := StripAll(raw);
    StripIff(raw[0], parts[0]);
    StripIff(raw[1], parts[1]);
    StripIff(raw[2], parts[2]);
    StripIff(raw[3], parts[3]);
    StripIff(raw[4], parts[4]);
  }

  /** A text for an integer has no white space around it. */
  lemma IntTextIsTrimmed(s: string, i: int)
    requires IsIntText(s, i)
    ensures Trimmed(s)
  {
    ParseIntIff(s, i);
    var digits := if s[0] == '-' || s[0] == '+' then s[1..] else s;
    assert digits[0] in digits && digits[|digits| - 1] in digits;
    assert s[|s| - 1] == digits[|digits| - 1];
  }

  lemma ParseOnParts(line: string, device: string, rec: Record, parts: seq<string>)
    requires StripAll(Split(line, ',')) == parts
    ensures ParseLine(line, device) == Some(rec) <==>
            && |parts| == 5 && parts[..4] == [rec.mkDate, rec.sta1, rec.sta2, rec.sta3]
            && IsMkDate(rec.mkDate) && ParseInt(parts[4]) == Some(rec.t1) && rec.device == device
            && rec.eventId == HashInput(device, rec.mkDate, rec.sta1, rec.sta2, rec.sta3, rec.t1)
  {
    StripFirst(line);
    if |parts| == 5 {
      assert parts[..4] == [parts[0], parts[1], parts[2], parts[3]];
    }
  }

  /** A line parses to a record exactly when it has five fields between commas, with
      white space around each: fourteen digits, three stations, an integer. The record
      has these values, the device id, and the identifier of all of them. */
  lemma {:induction false} ParseLineIff(line: string, device: string, rec: Record)
    ensures ParseLine(line, device) == Some(rec) <==>
            && |rec.mkDate| == 14 && (forall c | c in rec.mkDate :: '0' <= c <= '9')
            && Trimmed(rec.sta1) && Trimmed(rec.sta2) && Trimmed(rec.sta3) && rec.device == device
            && rec.eventId == HashInput(device, rec.mkDate, rec.sta1, rec.sta2, rec.sta3, rec.t1)
            && exists raw, t1 :: IsLineOf(line, raw, rec, t1) && IsIntText(t1, rec.t1)
  {
    var parts := StripAll(Split(line, ','));
    ParseOnParts(line, device, rec, parts);
    if ParseLine(line, device) == Some(rec) {
      ParsedParts(line, rec, parts);
    }
    if raw, t1 :| IsLineOf(line, raw, rec, t1) && IsIntText(t1, rec.t1) {
      if |rec.mkDate| == 14 && (forall c | c in rec.mkDate :: '0' <= c <= '9') && Trimmed(rec.sta1)
         && Trimmed(rec.sta2) && Trimmed(rec.sta3) {
        LineParts(line, raw, rec, t1);
      }
    }
  }

  lemma {:induction false} ParsedParts(line: string, rec: Record, parts: seq<string>)
    requires StripAll(Split(line, ',')) == parts && |parts| == 5
    requires parts[..4] == [rec.mkDate, rec.sta1, rec.sta2, rec.sta3] && ParseInt(parts[4]) == Some(rec.t1)
    ensures Trimmed(rec.sta1) && Trimmed(rec.sta2) && Trimmed(rec.sta3)
    ensures exists raw, t1 :: IsLineOf(line, raw, rec, t1) && IsIntText(t1, rec.t1)
  {
    assert parts == parts[..4] + [parts[4]];
    var raw := PartsOfLine(line, rec, parts[4]);
    ParseIntIff(parts[4], rec.t1);
    assert IsLineOf(line, raw, rec, parts[4]) && IsIntText(parts[4], rec.t1);
  }

  lemma {:induction false} LineParts(line: string, raw: seq<string>, rec: Record, t1: string)
    requires IsLineOf(line, raw, rec, t1) && IsIntText(t1, rec.t1) && IsMkDate(rec.mkDate)
    requires Trimmed(rec.sta1) && Trimmed(rec.sta2) && Trimmed(rec.sta3)
    ensures var parts := StripAll(Split(line, ','));
            && |parts| == 5 && parts[..4] == [rec.mkDate, rec.sta1, rec.sta2, rec.sta3]
            && ParseInt(parts[4]) == Some(rec.t1)
  {
    IntTextIsTrimmed(t1, rec.t1);
    ParseIntIff(t1, rec.t1);
    assert rec.mkDate[0] in rec.mkDate && rec.mkDate[13] in rec.mkDate;
    FiveParts(line, raw, rec, t1);
  }

  /** The hashed string determines the record, device id included. */
  lemma EventIdInjective(a: Record, b: Record)
    requires Valid(a) && Valid(b) && a.eventId == b.eventId
    ensures a == b
  {
    HashInputSplit(a);
    HashInputSplit(b);
    var ha, hb := a.device + "|" + a.mkDate, b.device + "|" + b.mkDate;
    var sa, sb := Split(ha, ','), Split(hb, ',');
    var ta := [a.sta1, a.sta2, a.sta3, IntText(a.t1)];
    var tb := [b.sta1, b.sta2, b.sta3, IntText(b.t1)];
    assert sa + ta == sb + tb && |ta| == |tb|;
    assert |sa| == |sb|;
    assert sa == (sa + ta)[..|sa|] == (sb + tb)[..|sb|] == sb;
    assert ta == (sa + ta)[|sa|..] == (sb + tb)[|sb|..] == tb;
    assert ta[0] == tb[0] && ta[1] == tb[1] && ta[2] == tb[2] && ta[3] == tb[3];
    JoinSplit(ha, ',');
    JoinSplit(hb, ',');
    assert ha == hb;
    assert |a.device| == |b.device|;
    assert a.device == ha[..|a.device|] == b.device;
    assert a.mkDate == ha[|a.device| + 1..] == b.mkDate;
    ParseIntText(a.t1);
    ParseIntText(b.t1);
  }
}

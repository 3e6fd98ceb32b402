/** The two text readers of create_combined_dataset_v2: the access-point
    file, whose second line holds the AP position, and the channel-parameter
    file, whose lines after the first are filtered into numeric records.

    A file is the sequence of its lines. Floating-point values are the type
    parameter `V`; Python's `float(p)` is the parameter `parse`, which gives
    None exactly where `float` raises ValueError. */
module Readers {
  import opened Wrappers
  import opened Text

  /** The block separator line of the channel file. */
  const Sentinel: string := "<ue>"

  datatype Position<V> = Position(x: V, y: V, z: V)

  type Parser<V> = string -> Option<V>

  // -----------------------------------------------------------------------
  // Access point

  /** The first three tokens of the second line, as floats; None where the
      source raises IndexError (a missing line or fewer than three tokens) or
      ValueError (a token that is not a number). Line 0 is a header and is
      never looked at, nor is anything after line 1. */
  function ReadAp<V>(lines: seq<string>, parse: Parser<V>): Option<Position<V>> {
    if |lines| < 2 then None
    else
      var tokens := Split(Strip(lines[1]));
      if |tokens| < 3 then None
      else
        match (parse(tokens[0]), parse(tokens[1]), parse(tokens[2]))
        case (Some(x), Some(y), Some(z)) => Some(Position(x, y, z))
        case _ => None
  }

  /** The AP position exists exactly when the second line has at least three
      tokens and the first three parse; it is then their three values, and
      any later token is ignored. */
  lemma ApMeaning<V>(lines: seq<string>, parse: Parser<V>)
    ensures ReadAp(lines, parse).Some? <==>
      |lines| >= 2 && |Split(lines[1])| >= 3 &&
      forall k :: 0 <= k < 3 ==> parse(Split(lines[1])[k]).Some?
    ensures ReadAp(lines, parse).Some? ==>
      var tokens := Split(lines[1]);
      ReadAp(lines, parse).value ==
        Position(parse(tokens[0]).value, parse(tokens[1]).value, parse(tokens[2]).value)
  {
    if |lines| >= 2 {
      SplitStrip(lines[1]);
    }
  }

  /** An AP file whose second line is three numbers, with any whitespace
      around and between them, reads back as exactly those numbers, whatever
      the header and whatever follows. */
  lemma ApRoundTrip<V>(header: string, lead: string, tokens: seq<string>, seps: seq<string>,
                       trail: string, rest: seq<string>, parse: Parser<V>)
    requires AllSpace(lead) && AllSpace(trail) && Separators(seps) && |seps| == 2
    requires |tokens| == 3 && forall k :: 0 <= k < 3 ==> IsWord(tokens[k]) && parse(tokens[k]).Some?
    ensures ReadAp([header, lead + JoinWith(tokens, seps) + trail] + rest, parse)
         == Some(Position(parse(tokens[0]).value, parse(tokens[1]).value, parse(tokens[2]).value))
  {
    var line := lead + JoinWith(tokens, seps) + trail;
    var lines := [header, line] + rest;
    assert lines[1] == line;
    SplitPadded(lead, tokens, seps, trail);
    ApMeaning(lines, parse);
  }

  /** The tokens of words written out with whitespace around and between
      them are those words. */
  lemma SplitPadded(lead: string, tokens: seq<string>, seps: seq<string>, trail: string)
    requires AllSpace(lead) && AllSpace(trail) && Separators(seps) && |tokens| == |seps| + 1
    requires forall k :: 0 <= k < |tokens| ==> IsWord(tokens[k])
    ensures Strip(lead + JoinWith(tokens, seps) + trail) == JoinWith(tokens, seps)
    ensures Split(lead + JoinWith(tokens, seps) + trail) == tokens
  {
    var joined := JoinWith(tokens, seps);
    JoinWithStripped(tokens, seps);
    StripPadded(lead, joined, trail);
    SplitStrip(lead + joined + trail);
    SplitJoinWith(tokens, seps);
  }

  /** A second line with fewer than three tokens is an IndexError, and so is
      a file of fewer than two lines. */
  lemma ApTooFewTokens<V>(lines: seq<string>, parse: Parser<V>)
    requires |lines| < 2 || |Split(lines[1])| < 3
    ensures ReadAp(lines, parse) == None
  {
    if |lines| >= 2 {
      SplitStrip(lines[1]);
    }
  }

  // -----------------------------------------------------------------------
  // One channel-file line

  /** Every part parses as a number. */
  predicate Numeric<V>(parts: seq<string>, parse: Parser<V>) {
    forall k :: 0 <= k < |parts| ==> parse(parts[k]).Some?
  }

  /** A channel-file line that yields a record: not blank once stripped, not
      the separator, and made only of numbers. */
  predicate IsRecordLine<V>(line: string, parse: Parser<V>) {
    var t := Strip(line);
    t != [] && t != Sentinel && Numeric(Split(t), parse)
  }

  /** `[float(p) for p in parts]`: Some values exactly when every part parses
      (the comprehension stops at the first ValueError), and then the values
      of the parts in order. */
  function ParseAll<V>(parts: seq<string>, parse: Parser<V>): (r: Option<seq<V>>)
    ensures r.Some? <==> Numeric(parts, parse)
    ensures r.Some? ==> |r.value| == |parts|
    ensures r.Some? ==> forall k :: 0 <= k < |parts| ==> r.value[k] == parse(parts[k]).value
  {
    if parts == [] then Some([])
    else
      match (parse(parts[0]), ParseAll(parts[1..], parse))
      case (Some(v), Some(vs)) => Some([v] + vs)
      case _ => None
  }

  /** The record one channel-file line yields (see LineRecordMeaning). */
  function LineRecord<V>(line: string, parse: Parser<V>): Option<seq<V>> {
    var t := Strip(line);
    if t == [] || t == Sentinel then None else ParseAll(Split(t), parse)
  }

  /** A line yields a record exactly when it is a record line, and the record
      holds the numbers of the line's tokens in order. */
  lemma LineRecordMeaning<V>(line: string, parse: Parser<V>)
    ensures LineRecord(line, parse).Some? <==> IsRecordLine(line, parse)
    ensures var r := LineRecord(line, parse); var parts := Split(line);
      r.Some? ==> |r.value| == |parts| && forall k :: 0 <= k < |parts| ==> parse(parts[k]) == Some(r.value[k])
  {
    SplitStrip(line);
  }

  /** A blank line yields no record, and neither does the separator, however
      it is padded with whitespace. */
  lemma BlankAndSeparatorSkipped<V>(line: string, a: string, b: string, parse: Parser<V>)
    requires AllSpace(a) && AllSpace(b)
    ensures AllSpace(line) ==> LineRecord(line, parse) == None
    ensures LineRecord(a + Sentinel + b, parse) == None
  {
    StripEmptyIff(line);
    StripPadded(a, Sentinel, b);
  }

  /** Numbers written out with any whitespace around and between them read
      back as a record of exactly those numbers; the one line this does not
      hold for is the separator itself. */
  lemma RecordRoundTrip<V>(lead: string, tokens: seq<string>, seps: seq<string>, trail: string,
                           parse: Parser<V>)
    requires AllSpace(lead) && AllSpace(trail) && Separators(seps) && |tokens| == |seps| + 1
    requires tokens != [Sentinel]
    requires forall k :: 0 <= k < |tokens| ==> IsWord(tokens[k]) && parse(tokens[k]).Some?
    ensures LineRecord(lead + JoinWith(tokens, seps) + trail, parse) == ParseAll(tokens, parse)
    ensures LineRecord(lead + JoinWith(tokens, seps) + trail, parse).Some?
  {
    var joined := JoinWith(tokens, seps);
    SplitPadded(lead, tokens, seps, trail);
    SplitJoinWith(tokens, seps);
    if joined == Sentinel {
      SentinelIsOneWord();
      assert false;
    }
  }

  lemma SentinelIsOneWord()
    ensures Split(Sentinel) == [Sentinel]
  {
    assert IsWord(Sentinel);
    SplitOneWord(Sentinel);
  }

  // -----------------------------------------------------------------------
  // The channel file

  function Emitted<V>(r: Option<seq<V>>): seq<seq<V>> {
    if r.Some? then [r.value] else []
  }

  /** What reading one line yields. */
  type LineReader<V> = string -> Option<seq<V>>

  /** The channel-file reading of one line, as a reader. */
  function ChannelLine<V>(parse: Parser<V>): LineReader<V> {
    line => LineRecord(line, parse)
  }

  /** The records a reader yields from lines 1 .. n - 1 of a file, in line
      order: line 0 is never read as a record. */
  function RecordsBefore<V>(lines: seq<string>, n: nat, read: LineReader<V>): seq<seq<V>>
    requires n <= |lines|
  {
    if n <= 1 then []
    else RecordsBefore(lines, n - 1, read) + Emitted(read(lines[n - 1]))
  }

  /** The records of a whole channel file. */
  function ChannelRecords<V>(lines: seq<string>, parse: Parser<V>): seq<seq<V>> {
    RecordsBefore(lines, |lines|, ChannelLine(parse))
  }

  /** The values are those of the parts, one for each, in order. */
  ghost predicate ValuesOf<V>(parts: seq<string>, parse: Parser<V>, values: seq<V>) {
    |values| == |parts| && forall k :: 0 <= k < |parts| ==> parse(parts[k]) == Some(values[k])
  }

  /** The body of the channel-file loop for one line (the diagnostic printed
      for a skipped non-numeric line is not modelled): a record exactly for a
      record line, holding the values of the line's tokens in order. */
  method ReadLine<V>(line: string, parse: Parser<V>) returns (r: Option<seq<V>>)
    ensures r.Some? <==> IsRecordLine(line, parse)
    ensures r.Some? ==> ValuesOf(Split(line), parse, r.value)
  {
    var t := Strip(line);
    SplitStrip(line);
    if t == [] || t == Sentinel {
      return None;
    }
    var parts := Split(t);
    r := ParseAll(parts, parse);
  }

  /** The meaning of a line's record determines it: any result with that
      meaning is the line's record. */
  lemma LineRecordUnique<V>(line: string, parse: Parser<V>, r: Option<seq<V>>)
    requires r.Some? <==> IsRecordLine(line, parse)
    requires r.Some? ==> ValuesOf(Split(line), parse, r.value)
    ensures r == ChannelLine(parse)(line)
  {
    LineRecordMeaning(line, parse);
    if r.Some? {
      var q := LineRecord(line, parse).value;
      assert forall k :: 0 <= k < |q| ==> r.value[k] == q[k];
      assert r.value == q;
    }
  }

  /** The channel-file loop: skip the first line, then keep the record of
      every later line that yields one. */
  method ReadChannelRecords<V>(lines: seq<string>, parse: Parser<V>) returns (records: seq<seq<V>>)
    ensures records == ChannelRecords(lines, parse)
  {
    records := [];
    if lines == [] {
      return;
    }
    ghost var read := ChannelLine(parse);
    var i := 1;
    while i < |lines|
      invariant 1 <= i <= |lines|
      invariant records == RecordsBefore(lines, i, read)
    {
      ghost var before := records;
      var r := ReadLine(lines[i], parse);
      LineRecordUnique(lines[i], parse, r);
      if r.Some? {
        records := records + [r.value];
      }
      RecordsStep(lines, i, read, before, r, records);
      i := i + 1;
    }
  }

  lemma RecordsStep<V>(lines: seq<string>, i: nat, read: LineReader<V>,
                       before: seq<seq<V>>, r: Option<seq<V>>, after: seq<seq<V>>)
    requires 1 <= i < |lines| && before == RecordsBefore(lines, i, read)
    requires r == read(lines[i])
    requires after == if r.Some? then before + [r.value] else before
    ensures after == RecordsBefore(lines, i + 1, read)
  {
  }

  // -----------------------------------------------------------------------
  // What the channel loop keeps

  /** The records a reader keeps from a run of lines, each line read on its
      own, in line order. */
  function Kept<V>(body: seq<string>, read: LineReader<V>): seq<seq<V>> {
    if body == [] then [] else Emitted(read(body[0])) + Kept(body[1..], read)
  }

  /** Reading a run of lines in two parts gives the records of each part, one
      after the other. */
  lemma {:induction false} KeptAppend<V>(a: seq<string>, b: seq<string>, read: LineReader<V>)
    ensures Kept(a + b, read) == Kept(a, read) + Kept(b, read)
  {
    if a != [] {
      assert (a + b)[1..] == a[1..] + b;
      assert (a + b)[0] == a[0];
      KeptAppend(a[1..], b, read);
    } else {
      assert a + b == b;
    }
  }

  lemma KeptOne<V>(line: string, read: LineReader<V>)
    ensures Kept([line], read) == Emitted(read(line))
  {
    assert [line][1..] == [];
  }

  /** At most one record per line. */
  lemma {:induction false} KeptLength<V>(body: seq<string>, read: LineReader<V>)
    ensures |Kept(body, read)| <= |body|
  {
    if body != [] {
      KeptLength(body[1..], read);
    }
  }

  /** When every line yields a record, record k is the record of line k. */
  lemma {:induction false} KeptAll<V>(body: seq<string>, read: LineReader<V>)
    requires forall k :: 0 <= k < |body| ==> read(body[k]).Some?
    ensures |Kept(body, read)| == |body|
    ensures forall k :: 0 <= k < |body| ==> read(body[k]) == Some(Kept(body, read)[k])
  {
    if body != [] {
      KeptAll(body[1..], read);
      forall k | 0 <= k < |body|
        ensures read(body[k]) == Some(Kept(body, read)[k])
      {
        if k > 0 {
          assert body[1..][k - 1] == body[k];
        }
      }
    }
  }

  /** The records of a run of channel-file lines, each line on its own: the
      reference the loop is compared with. */
  function Filter<V>(body: seq<string>, parse: Parser<V>): seq<seq<V>> {
    Kept(body, ChannelLine(parse))
  }

  /** The loop's records are those a reader keeps from lines 1 .. n - 1. */
  lemma {:induction false} RecordsBeforeKept<V>(lines: seq<string>, n: nat, read: LineReader<V>)
    requires 1 <= n <= |lines|
    ensures RecordsBefore(lines, n, read) == Kept(lines[1..n], read)
  {
    if n > 1 {
      RecordsBeforeKept(lines, n - 1, read);
      assert lines[1..n] == lines[1..n - 1] + [lines[n - 1]];
      KeptAppend(lines[1..n - 1], [lines[n - 1]], read);
      KeptOne(lines[n - 1], read);
    }
  }

  /** The channel file's records are those of every line after the first,
      whatever the first line holds. */
  lemma ChannelRecordsSkipHeader<V>(header: string, body: seq<string>, parse: Parser<V>)
    ensures ChannelRecords([header] + body, parse) == Filter(body, parse)
  {
    var lines := [header] + body;
    RecordsBeforeKept(lines, |lines|, ChannelLine(parse));
    assert lines[1..|lines|] == body;
  }

  /** Reading a run of channel lines in two parts gives the records of each
      part, one after the other. */
  lemma FilterAppend<V>(a: seq<string>, b: seq<string>, parse: Parser<V>)
    ensures Filter(a + b, parse) == Filter(a, parse) + Filter(b, parse)
  {
    KeptAppend(a, b, ChannelLine(parse));
  }

  /** A line that yields no record, between any two runs of lines, contributes
      nothing, and reading goes on after it. */
  lemma SkippedLine<V>(a: seq<string>, line: string, b: seq<string>, parse: Parser<V>)
    requires !IsRecordLine(line, parse)
    ensures Filter(a + [line] + b, parse) == Filter(a, parse) + Filter(b, parse)
  {
    LineRecordMeaning(line, parse);
    KeptAppend(a + [line], b, ChannelLine(parse));
    KeptAppend(a, [line], ChannelLine(parse));
    KeptOne(line, ChannelLine(parse));
  }

  /** A record line keeps its record in place. */
  lemma KeptLine<V>(a: seq<string>, line: string, b: seq<string>, parse: Parser<V>)
    requires IsRecordLine(line, parse)
    ensures LineRecord(line, parse).Some?
    ensures Filter(a + [line] + b, parse)
         == Filter(a, parse) + [LineRecord(line, parse).value] + Filter(b, parse)
  {
    LineRecordMeaning(line, parse);
    KeptAppend(a + [line], b, ChannelLine(parse));
    KeptAppend(a, [line], ChannelLine(parse));
    KeptOne(line, ChannelLine(parse));
  }

  /** At most one record per line. */
  lemma FilterLength<V>(body: seq<string>, parse: Parser<V>)
    ensures |Filter(body, parse)| <= |body|
  {
    KeptLength(body, ChannelLine(parse));
  }

  /** When every line is a record line, record k is the record of line k. */
  lemma FilterAllRecords<V>(body: seq<string>, parse: Parser<V>)
    requires forall k :: 0 <= k < |body| ==> IsRecordLine(body[k], parse)
    ensures |Filter(body, parse)| == |body|
    ensures forall k :: 0 <= k < |body| ==> LineRecord(body[k], parse) == Some(Filter(body, parse)[k])
  {
    forall k | 0 <= k < |body| ensures ChannelLine(parse)(body[k]).Some? {
      LineRecordMeaning(body[k], parse);
    }
    KeptAll(body, ChannelLine(parse));
  }
}

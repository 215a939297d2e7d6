/// Waiting for the next `score_completed` line of a growing log, and finding it again
/// (ops/calibration_two_worker_continuation_18d6494.py: _wait_for_score_completed_record,
/// _validate_logged_recovery_boundary).
///
/// The scanner sees the log as the chunks its reads return, cut anywhere.  The text of a
/// line is judged by two parameters: `decode`, UTF-8 and JSON together, and `scored`,
/// which picks the `score_completed` objects.  A digest of a line stands for the line.

module LogScanner {
  import opened Wrappers
  import opened Sequences

  const NEWLINE: Byte := 10

  datatype Reader<!Json> = Reader(decode: Bytes -> Option<Json>, scored: Json -> bool) {

    predicate Wanted(raw: Bytes) {
      decode(raw).Some? && scored(decode(raw).value)
    }
  }

  // One turn of the outer loop before the deadline: is the scorer still the same live
  // process, and what did the read return (nothing at the end of the file)?
  datatype Poll = Poll(alive: bool, chunk: Bytes)

  datatype Record<Json> = Record(line: Json, raw: Bytes, start: nat, end: nat)

  datatype ScanError = IdentityChanged | TimedOut

  // ---------------------------------------------------------------- the simple form

  function FirstNewline(s: Bytes): (k: nat)
    requires NEWLINE in s
    ensures k < |s| && s[k] == NEWLINE && forall i :: 0 <= i < k ==> s[i] != NEWLINE
  {
    if s[0] == NEWLINE then 0 else 1 + FirstNewline(s[1..])
  }

  // The first complete line of `s` that is wanted, `s` standing at `offset` in the log.
  function FirstRecord<Json>(reader: Reader<Json>, s: Bytes, offset: nat): Option<Record<Json>>
    decreases |s|
  {
    if NEWLINE !in s then None
    else
      var k := FirstNewline(s);
      if reader.Wanted(s[..k])
      then Some(Record(reader.decode(s[..k]).value, s[..k], offset, offset + k + 1))
      else FirstRecord(reader, s[k + 1..], offset + k + 1)
  }

  // Rereading everything after every chunk.
  function Rescan<Json>(reader: Reader<Json>, offset: nat, seen: Bytes, polls: seq<Poll>)
    : Result<Record<Json>, ScanError>
    decreases |polls|
  {
    if polls == [] then Err(TimedOut)
    else if !polls[0].alive then Err(IdentityChanged)
    else match FirstRecord(reader, seen + polls[0].chunk, offset)
      case Some(record) => Ok(record)
      case None => Rescan(reader, offset, seen + polls[0].chunk, polls[1..])
  }

  // ---------------------------------------------------------------- the scanner

  // Whole lines, none of them wanted.
  predicate Barren<Json>(reader: Reader<Json>, s: Bytes) {
    && (s != [] ==> s[|s| - 1] == NEWLINE)
    && FirstRecord(reader, s, 0).None?
  }

  lemma SplitAtNewline(s: Bytes, t: Bytes)
    requires NEWLINE in s
    ensures NEWLINE in s + t && FirstNewline(s + t) == FirstNewline(s)
  {
    hide FirstNewline;
    var k := FirstNewline(s);
    assert (s + t)[k] == NEWLINE;
    var m := FirstNewline(s + t);
    assert m < |s| ==> (s + t)[m] == s[m];
  }

  lemma {:induction false} OffsetIrrelevant<Json>(reader: Reader<Json>, s: Bytes, o: nat, p: nat)
    ensures FirstRecord(reader, s, o).None? <==> FirstRecord(reader, s, p).None?
    decreases |s|
  {
    hide FirstNewline;
    if NEWLINE in s {
      var k := FirstNewline(s);
      OffsetIrrelevant(reader, s[k + 1..], o + k + 1, p + k + 1);
    }
  }

  // One line of the reading.
  lemma FirstLine<Json>(reader: Reader<Json>, s: Bytes, offset: nat)
    requires NEWLINE in s
    ensures var k := FirstNewline(s);
            FirstRecord(reader, s, offset)
            == if reader.Wanted(s[..k]) then Some(Record(reader.decode(s[..k]).value, s[..k], offset, offset + k + 1))
               else FirstRecord(reader, s[k + 1..], offset + k + 1)
  {
    hide FirstNewline, Reader.Wanted;
  }

  lemma BarrenTail<Json>(reader: Reader<Json>, s: Bytes)
    requires Barren(reader, s) && s != []
    ensures NEWLINE in s && !reader.Wanted(s[..FirstNewline(s)]) && Barren(reader, s[FirstNewline(s) + 1..])
  {
    hide FirstNewline, FirstRecord, Reader.Wanted;
    assert s[|s| - 1] == NEWLINE;
    FirstLine(reader, s, 0);
    OffsetIrrelevant(reader, s[FirstNewline(s) + 1..], 0, FirstNewline(s) + 1);
  }

  lemma {:induction false} SkipBarren<Json>(reader: Reader<Json>, s: Bytes, t: Bytes, offset: nat)
    requires Barren(reader, s)
    ensures FirstRecord(reader, s + t, offset) == FirstRecord(reader, t, offset + |s|)
    decreases |s|
  {
    hide FirstNewline, FirstRecord, Barren, Reader.Wanted;
    if s == [] {
      assert s + t == t;
    } else {
      BarrenTail(reader, s);
      var k := FirstNewline(s);
      SplitAtNewline(s, t);
      FirstLine(reader, s + t, offset);
      assert (s + t)[..k] == s[..k];
      assert (s + t)[k + 1..] == s[k + 1..] + t;
      SkipBarren(reader, s[k + 1..], t, offset + k + 1);
    }
  }

  lemma BarrenNothing<Json>(reader: Reader<Json>)
    ensures Barren(reader, [])
  {
  }

  lemma NoRecord<Json>(reader: Reader<Json>, s: Bytes, offset: nat)
    requires NEWLINE !in s
    ensures FirstRecord(reader, s, offset).None?
  {
  }

  lemma OneLine<Json>(reader: Reader<Json>, raw: Bytes, rest: Bytes, offset: nat)
    requires NEWLINE !in raw
    ensures FirstRecord(reader, raw + [NEWLINE] + rest, offset)
            == if reader.Wanted(raw) then Some(Record(reader.decode(raw).value, raw, offset, offset + |raw| + 1))
               else FirstRecord(reader, rest, offset + |raw| + 1)
  {
    hide FirstNewline;
    var s := raw + [NEWLINE] + rest;
    assert s[|raw|] == NEWLINE;
    var k := FirstNewline(s);
    assert s[..k] == raw && s[k + 1..] == rest;
  }

  lemma BarrenGrows<Json>(reader: Reader<Json>, s: Bytes, raw: Bytes)
    requires Barren(reader, s) && NEWLINE !in raw && !reader.Wanted(raw)
    ensures Barren(reader, s + (raw + [NEWLINE]))
  {
    SkipBarren(reader, s, raw + [NEWLINE], 0);
    OneLine(reader, raw, [], |s|);
    assert raw + [NEWLINE] + [] == raw + [NEWLINE];
  }

  /// The incremental scanner, with its buffer and its arithmetic on file positions, is
  /// the rereading one.
  method WaitForScoreCompleted<Json>(reader: Reader<Json>, offset: nat, polls: seq<Poll>)
    returns (r: Result<Record<Json>, ScanError>)
    ensures r == Rescan(reader, offset, [], polls)
  {
    hide FirstNewline, FirstRecord, Barren;
    BarrenNothing(reader);
    var buffer: Bytes, tell := [], offset;
    ghost var seen: Bytes, done: Bytes := [], [];
    var i := 0;
    while i < |polls|
      invariant 0 <= i <= |polls|
      invariant tell == offset + |seen| && seen == done + buffer
      invariant Barren(reader, done) && NEWLINE !in buffer
      invariant Rescan(reader, offset, [], polls) == Rescan(reader, offset, seen, polls[i..])
    {
      if !polls[i].alive {
        return Err(IdentityChanged);
      }
      var chunk := polls[i].chunk;
      tell := tell + |chunk|;
      buffer := buffer + chunk;
      seen := seen + chunk;
      while NEWLINE in buffer
        invariant tell == offset + |seen| && seen == done + buffer && Barren(reader, done)
        decreases |buffer|
      {
        var raw, rest := buffer[..FirstNewline(buffer)], buffer[FirstNewline(buffer) + 1..];
        assert buffer == raw + [NEWLINE] + rest;
        buffer := rest;
        var end := tell - |buffer|;
        var start := end - |raw| - 1;
        SkipBarren(reader, done, raw + [NEWLINE] + rest, offset);
        OneLine(reader, raw, rest, offset + |done|);
        if reader.Wanted(raw) {
          return Ok(Record(reader.decode(raw).value, raw, start, end));
        }
        BarrenGrows(reader, done, raw);
        done := done + (raw + [NEWLINE]);
      }
      SkipBarren(reader, done, buffer, offset);
      NoRecord(reader, buffer, offset + |done|);
      assert polls[i..][1..] == polls[i + 1..];
      i := i + 1;
    }
    return Err(TimedOut);
  }

  // ---------------------------------------------------------------- what is found

  // The bytes read while the scorer was alive.
  function ReadAlive(polls: seq<Poll>): Bytes {
    if polls == [] || !polls[0].alive then [] else polls[0].chunk + ReadAlive(polls[1..])
  }

  lemma {:induction false} RecordStays<Json>(reader: Reader<Json>, s: Bytes, t: Bytes, offset: nat)
    requires FirstRecord(reader, s, offset).Some?
    ensures FirstRecord(reader, s + t, offset) == FirstRecord(reader, s, offset)
    decreases |s|
  {
    hide FirstNewline;
    var k := FirstNewline(s);
    SplitAtNewline(s, t);
    assert (s + t)[..k] == s[..k];
    if !reader.Wanted(s[..k]) {
      assert (s + t)[k + 1..] == s[k + 1..] + t;
      RecordStays(reader, s[k + 1..], t, offset + k + 1);
    }
  }

  lemma {:induction false} RescanIs<Json>(reader: Reader<Json>, offset: nat, seen: Bytes, polls: seq<Poll>)
    requires FirstRecord(reader, seen, offset).None?
    ensures var found := FirstRecord(reader, seen + ReadAlive(polls), offset);
            Rescan(reader, offset, seen, polls)
            == if found.Some? then Ok(found.value)
               else if exists i :: 0 <= i < |polls| && !polls[i].alive then Err(IdentityChanged) else Err(TimedOut)
    decreases |polls|
  {
    if polls == [] || !polls[0].alive {
      assert seen + ReadAlive(polls) == seen;
    } else {
      var more := seen + polls[0].chunk;
      assert seen + ReadAlive(polls) == more + ReadAlive(polls[1..]);
      if FirstRecord(reader, more, offset).Some? {
        RecordStays(reader, more, ReadAlive(polls[1..]), offset);
      } else {
        RescanIs(reader, offset, more, polls[1..]);
        assert forall i :: 1 <= i < |polls| ==> polls[i] == polls[1..][i - 1];
      }
    }
  }

  /// How the bytes are cut into chunks does not matter: the outcome is the first wanted
  /// line of everything read while the scorer lived, and otherwise the reason to give up.
  lemma ChunksIrrelevant<Json>(reader: Reader<Json>, offset: nat, polls: seq<Poll>)
    ensures var found := FirstRecord(reader, ReadAlive(polls), offset);
            Rescan(reader, offset, [], polls)
            == if found.Some? then Ok(found.value)
               else if exists i :: 0 <= i < |polls| && !polls[i].alive then Err(IdentityChanged) else Err(TimedOut)
  {
    RescanIs(reader, offset, [], polls);
    assert [] + ReadAlive(polls) == ReadAlive(polls);
  }

  // `s[a..e]` is a complete line of `s`, its newline at `e`.
  predicate IsLine(s: Bytes, a: nat, e: nat) {
    && a <= e < |s| && s[e] == NEWLINE && (forall i :: a <= i < e ==> s[i] != NEWLINE)
    && (a == 0 || s[a - 1] == NEWLINE)
  }

  // `record` is the first wanted complete line of `s`, told without reading in order.
  ghost predicate IsFirst<Json>(reader: Reader<Json>, s: Bytes, offset: nat, record: Record<Json>) {
    && offset <= record.start < record.end <= offset + |s|
    && var a, e := record.start - offset, record.end - offset - 1;
    && IsLine(s, a, e) && record.raw == s[a..e]
    && reader.decode(record.raw) == Some(record.line) && reader.scored(record.line)
    && forall b: nat, f: nat :: IsLine(s, b, f) && b < a ==> !reader.Wanted(s[b..f])
  }

  // The lines of `s` are its first line and the lines after the first newline.
  lemma LineAfterFirst(s: Bytes, a: nat, e: nat)
    requires IsLine(s, a, e)
    ensures var k := FirstNewline(s);
            || (a == 0 && e == k && s[a..e] == s[..k])
            || (a > k && IsLine(s[k + 1..], a - k - 1, e - k - 1) && s[a..e] == s[k + 1..][a - k - 1..e - k - 1])
  {
    hide FirstNewline;
    var k := FirstNewline(s);
    if k < a {
      assert s[a..e] == s[k + 1..][a - k - 1..e - k - 1];
    }
  }

  lemma FirstLineWanted<Json>(reader: Reader<Json>, s: Bytes, offset: nat)
    requires NEWLINE in s && reader.Wanted(s[..FirstNewline(s)])
    ensures var k := FirstNewline(s);
            IsFirst(reader, s, offset, Record(reader.decode(s[..k]).value, s[..k], offset, offset + k + 1))
  {
    hide FirstNewline;
    assert s[0..FirstNewline(s)] == s[..FirstNewline(s)];
  }

  lemma LaterLineWanted<Json>(reader: Reader<Json>, s: Bytes, offset: nat, record: Record<Json>)
    requires NEWLINE in s && !reader.Wanted(s[..FirstNewline(s)])
    requires var k := FirstNewline(s); IsFirst(reader, s[k + 1..], offset + k + 1, record)
    ensures IsFirst(reader, s, offset, record)
  {
    hide FirstNewline, Reader.Wanted;
    var k := FirstNewline(s);
    var a, e := record.start - offset, record.end - offset - 1;
    assert s[a..e] == s[k + 1..][a - k - 1..e - k - 1];
    assert a - 1 > k ==> s[a - 1] == s[k + 1..][a - k - 2];
    forall b: nat, f: nat | IsLine(s, b, f) && b < a
      ensures !reader.Wanted(s[b..f])
    {
      LineAfterFirst(s, b, f);
    }
  }

  /// The scanner's answer is the first wanted complete line, and it answers whenever
  /// there is one.
  lemma {:induction false} FirstRecordIsFirst<Json>(reader: Reader<Json>, s: Bytes, offset: nat)
    ensures var found := FirstRecord(reader, s, offset);
            && (found.Some? ==> IsFirst(reader, s, offset, found.value))
            && (found.None? ==> forall a: nat, e: nat :: IsLine(s, a, e) ==> !reader.Wanted(s[a..e]))
    decreases |s|
  {
    hide FirstNewline, IsFirst, Reader.Wanted;
    if NEWLINE in s {
      var k := FirstNewline(s);
      if reader.Wanted(s[..k]) {
        FirstLineWanted(reader, s, offset);
      } else {
        FirstRecordIsFirst(reader, s[k + 1..], offset + k + 1);
        var found := FirstRecord(reader, s[k + 1..], offset + k + 1);
        if found.Some? {
          LaterLineWanted(reader, s, offset, found.value);
        } else {
          forall a: nat, e: nat | IsLine(s, a, e)
            ensures !reader.Wanted(s[a..e])
          {
            LineAfterFirst(s, a, e);
          }
        }
      }
    }
  }

  // ---------------------------------------------------------------- finding it again

  // `stream.seek(start); stream.read(end - start)` on a file that may be shorter.
  function ReadAt(log: Bytes, start: nat, end: nat): Bytes
    requires start <= end
  {
    if |log| <= start then [] else if |log| < end then log[start..] else log[start..end]
  }

  // The offset and content checks of _validate_logged_recovery_boundary.
  predicate Revalidates<Json(==)>(reader: Reader<Json>, log: Bytes, offset: nat, record: Record<Json>) {
    && offset <= record.start < record.end
    && var payload := ReadAt(log, record.start, record.end);
    && payload != [] && payload[|payload| - 1] == NEWLINE
    && payload[..|payload| - 1] == record.raw
    && reader.decode(payload[..|payload| - 1]) == Some(record.line)
  }

  predicate StillThere<Json>(log: Bytes, record: Record<Json>) {
    record.start <= record.end <= |log| && log[record.start..record.end] == record.raw + [NEWLINE]
  }

  /// Whatever record is presented, the later check passes exactly when its line stands at
  /// the start offset, decodes to what the record says, and reaches the end offset or, short
  /// of it, the end of the log.
  lemma RevalidatesRecord<Json>(reader: Reader<Json>, log: Bytes, offset: nat, record: Record<Json>)
    requires record.start <= record.end
    ensures var stop := record.start + |record.raw| + 1;
            Revalidates(reader, log, offset, record)
            <==> && offset <= record.start && stop <= |log| && log[record.start..stop] == record.raw + [NEWLINE]
                 && (stop == record.end || (stop < record.end && stop == |log|))
                 && reader.decode(record.raw) == Some(record.line)
  {
    var payload, stop := ReadAt(log, record.start, record.end), record.start + |record.raw| + 1;
    if Revalidates(reader, log, offset, record) {
      assert payload == record.raw + [NEWLINE];
    } else if offset <= record.start && stop <= |log| && log[record.start..stop] == record.raw + [NEWLINE] {
      assert stop == |log| ==> log[record.start..] == log[record.start..stop];
      assert (record.raw + [NEWLINE])[..|record.raw|] == record.raw;
    }
  }

  /// A record the scanner returned passes the later check exactly when the log still has
  /// that line, newline included, at its offsets.
  lemma RevalidatesExactly<Json>(reader: Reader<Json>, offset: nat, polls: seq<Poll>, log: Bytes)
    requires Rescan(reader, offset, [], polls).Ok?
    ensures var record := Rescan(reader, offset, [], polls).value;
            Revalidates(reader, log, offset, record)
            <==> StillThere(log, record)
  {
    hide Rescan, FirstRecord, ReadAlive, FirstNewline;
    ChunksIrrelevant(reader, offset, polls);
    FirstRecordIsFirst(reader, ReadAlive(polls), offset);
    RevalidatesRecord(reader, log, offset, Rescan(reader, offset, [], polls).value);
  }

  lemma SameSlice(log: Bytes, offset: nat, s: Bytes, a: nat, e: nat)
    requires offset <= |log| && s <= log[offset..] && a <= e <= |s|
    ensures offset + e <= |log| && log[offset + a..offset + e] == s[a..e]
  {
    assert forall i :: 0 <= i < |s| ==> s[i] == log[offset..][i] == log[offset + i];
  }

  /// What was read is still in the log as long as the log only grew, so the later check
  /// succeeds.
  lemma AppendOnlyRevalidates<Json>(reader: Reader<Json>, offset: nat, polls: seq<Poll>, log: Bytes)
    requires Rescan(reader, offset, [], polls).Ok?
    requires offset <= |log| && ReadAlive(polls) <= log[offset..]
    ensures Revalidates(reader, log, offset, Rescan(reader, offset, [], polls).value)
  {
    hide Rescan, FirstRecord, ReadAlive, FirstNewline, Revalidates;
    ChunksIrrelevant(reader, offset, polls);
    var s := ReadAlive(polls);
    FirstRecordIsFirst(reader, s, offset);
    RevalidatesExactly(reader, offset, polls, log);
    var record := Rescan(reader, offset, [], polls).value;
    var a, e := record.start - offset, record.end - offset - 1;
    SameSlice(log, offset, s, a, e + 1);
    assert s[a..e + 1] == s[a..e] + [NEWLINE];
  }
}

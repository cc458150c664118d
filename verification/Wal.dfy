/** The write-ahead log as bytes: length-and-checksum framing, the writer with its
    latched error, and the reader that treats a torn tail as the end. */
module Wal {
  import opened Bytes
  import opened Crc32c

  const HEADER_SIZE: nat := 8
  const MAX_PAYLOAD: nat := 64 * 1024 * 1024

  predicate Writable(p: Bytes) { 0 < |p| <= MAX_PAYLOAD }

  predicate AllWritable(ps: seq<Bytes>) { forall i :: 0 <= i < |ps| ==> Writable(ps[i]) }

  /** One record: payload length, payload checksum, payload. */
  function Frame(p: Bytes): (f: Bytes)
    requires Writable(p)
    ensures |f| == HEADER_SIZE + |p|
  {
    Fixed32(|p|) + Fixed32(Crc(p)) + p
  }

  /** The file a sequence of successful appends leaves. */
  function Log(ps: seq<Bytes>): Bytes
    requires AllWritable(ps)
  {
    if ps == [] then [] else Frame(ps[0]) + Log(ps[1..])
  }

  lemma {:induction false} LogAppend(ps: seq<Bytes>, p: Bytes)
    requires AllWritable(ps) && Writable(p)
    ensures Log(ps + [p]) == Log(ps) + Frame(p)
  {
    hide Frame;
    if ps == [] {
      assert ps + [p] == [p] && [p][1..] == [];
    } else {
      LogAppend(ps[1..], p);
      assert (ps + [p])[1..] == ps[1..] + [p];
    }
  }

  // ---------- writer ----------

  /** `budget` is how many bytes the file system takes before it reports an error. */
  class WalWriter {
    var file: Bytes
    var failed: bool

    constructor (existing: Bytes)
      ensures file == existing && !failed
    {
      file := existing;
      failed := false;
    }

    /** A failed append may leave any part of the record behind; after it nothing
        more is ever written. */
    method Append(payload: Bytes, budget: nat) returns (ok: bool)
      modifies this
      ensures old(failed) || !Writable(payload) ==> !ok && file == old(file) && failed == old(failed)
      ensures !old(failed) && Writable(payload) ==>
                && ok == (|Frame(payload)| <= budget) && failed == !ok
                && file == old(file) + (if ok then Frame(payload) else Frame(payload)[..budget])
    {
      hide Crc;
      if failed { return false; }
      if |payload| == 0 || |payload| > MAX_PAYLOAD { return false; }
      var checksum := Checksum(payload);
      var header := Fixed32(|payload|) + Fixed32(checksum);
      var left;
      left := WriteAll(header, budget);
      assert Frame(payload) == header + payload;
      if failed { return false; }
      left := WriteAll(payload, left);
      return !failed;
    }

    method WriteAll(data: Bytes, budget: nat) returns (left: nat)
      requires !failed
      modifies this
      ensures failed == (budget < |data|)
      ensures file == old(file) + (if failed then data[..budget] else data)
      ensures !failed ==> left == budget - |data|
    {
      if budget < |data| {
        file := file + data[..budget];
        failed := true;
        left := 0;
      } else {
        file := file + data;
        left := budget - |data|;
      }
    }
  }

  // ---------- reader ----------

  datatype Outcome = End | Record(payload: Bytes) | Corrupt

  /** What one `readNext` finds in the unread rest of the file. */
  function NextRecord(rest: Bytes): (r: Outcome)
    ensures r.Record? ==> Writable(r.payload) && HEADER_SIZE + |r.payload| <= |rest|
  {
    if |rest| < HEADER_SIZE then End
    else
      var length, checksum := Unfixed(rest[..4]), Unfixed(rest[4..8]);
      if length == 0 || length > MAX_PAYLOAD then Corrupt
      else if |rest| < HEADER_SIZE + length then End
      else
        var payload := rest[HEADER_SIZE..HEADER_SIZE + length];
        if Crc(payload) != checksum then Corrupt else Record(payload)
  }

  datatype Replay = Replay(records: seq<Bytes>, validBytes: nat, corrupt: bool)

  /** Reading to the end: all records, and the boundary behind the last one. */
  function ReadAll(file: Bytes): (r: Replay)
    ensures AllWritable(r.records)
  {
    match NextRecord(file)
    case End => Replay([], 0, false)
    case Corrupt => Replay([], 0, true)
    case Record(payload) =>
      var size := HEADER_SIZE + |payload|;
      var r := ReadAll(file[size..]);
      Replay([payload] + r.records, size + r.validBytes, r.corrupt)
  }

  class WalReader {
    const file: Bytes
    var position: nat
    var validBytes: nat

    predicate Valid()
      reads this
    {
      position == validBytes <= |file|
    }

    constructor (contents: Bytes)
      ensures Valid() && file == contents && position == 0
    {
      file := contents;
      position := 0;
      validBytes := 0;
    }

    method ReadNext() returns (r: Outcome)
      requires Valid()
      modifies this
      ensures r == NextRecord(old(file[position..]))
      ensures r.Record? ==> Valid() && validBytes == old(validBytes) + HEADER_SIZE + |r.payload|
      ensures !r.Record? ==> validBytes == old(validBytes)
    {
      hide Crc;
      ghost var rest := file[position..];
      var header := file[position..(if |file| < position + 8 then |file| else position + 8)];
      position := position + |header|;
      if |header| < HEADER_SIZE { return End; }
      assert header == rest[..8];
      assert header[..4] == rest[..4];
      assert header[4..8] == rest[4..8];
      var length, checksum := Unfixed(header[..4]), Unfixed(header[4..8]);
      if length == 0 { return Corrupt; }
      if length > MAX_PAYLOAD { return Corrupt; }
      if |file| < position + length {
        position := |file|;
        return End;
      }
      var payload := file[position..position + length];
      assert payload == rest[HEADER_SIZE..HEADER_SIZE + length];
      position := position + length;
      var computed := Checksum(payload);
      if computed != checksum { return Corrupt; }
      validBytes := validBytes + HEADER_SIZE + length;
      return Record(payload);
    }
  }

  // ---------- every prefix replays to its whole records ----------

  /** How many of the records lie wholly inside the first `n` bytes. */
  function WholeRecords(ps: seq<Bytes>, n: nat): (k: nat)
    requires AllWritable(ps)
    ensures k <= |ps|
  {
    if ps == [] || n < |Frame(ps[0])| then 0 else 1 + WholeRecords(ps[1..], n - |Frame(ps[0])|)
  }

  lemma NextOfFrame(p: Bytes, tail: Bytes)
    requires Writable(p)
    ensures NextRecord(Frame(p) + tail) == Record(p)
  {
    hide Crc;
    var rest := Frame(p) + tail;
    assert rest[..4] == Fixed32(|p|) && rest[4..8] == Fixed32(Crc(p));
    assert rest[HEADER_SIZE..HEADER_SIZE + |p|] == p;
  }

  lemma NextOfNothing()
    ensures NextRecord([]) == End
  {}

  lemma NextOfTornFrame(p: Bytes, n: nat)
    requires Writable(p) && n < |Frame(p)|
    ensures NextRecord(Frame(p)[..n]) == End
  {
    hide Crc;
    if HEADER_SIZE <= n {
      assert Frame(p)[..n][..4] == Fixed32(|p|);
    }
  }

  /** For every byte prefix of a log made by appends, the reader returns exactly the
      records wholly inside it, reports no corruption and stops at their end. */
  lemma {:induction false} PrefixReplays(ps: seq<Bytes>, n: nat)
    requires AllWritable(ps) && n <= |Log(ps)|
    ensures var k := WholeRecords(ps, n);
      ReadAll(Log(ps)[..n]) == Replay(ps[..k], |Log(ps[..k])|, false) && |Log(ps[..k])| <= n
  {
    hide Frame;
    hide NextRecord;
    if ps == [] {
      NextOfNothing();
    } else {
      var frame, k := Frame(ps[0]), WholeRecords(ps, n);
      if n < |frame| {
        NextOfTornFrame(ps[0], n);
        assert Log(ps)[..n] == frame[..n];
        assert ps[..k] == [];
      } else {
        var rest := Log(ps[1..])[..n - |frame|];
        assert Log(ps)[..n] == frame + rest;
        NextOfFrame(ps[0], rest);
        assert (frame + rest)[|frame|..] == rest;
        PrefixReplays(ps[1..], n - |frame|);
        assert ps[..k] == [ps[0]] + ps[1..][..k - 1];
        assert ps[..k][1..] == ps[1..][..k - 1];
      }
    }
  }

  lemma {:induction false} AllRecordsWhole(ps: seq<Bytes>, extra: Bytes, n: nat)
    requires AllWritable(ps) && Writable(extra) && n <= |Frame(extra)|
    ensures WholeRecords(ps + [extra], |Log(ps)| + n) == |ps| + (if n == |Frame(extra)| then 1 else 0)
  {
    hide Frame;
    if ps == [] {
      assert ps + [extra] == [extra];
    } else {
      assert (ps + [extra])[1..] == ps[1..] + [extra];
      AllRecordsWhole(ps[1..], extra, n);
    }
  }

  /** A log whose last append was cut short replays to everything before it; if the
      whole record made it to the file, to that record as well. */
  lemma TornLogReplays(ps: seq<Bytes>, extra: Bytes, n: nat)
    requires AllWritable(ps) && Writable(extra) && n <= |Frame(extra)|
    ensures ReadAll(Log(ps) + Frame(extra)[..n]) ==
              if n < |Frame(extra)| then Replay(ps, |Log(ps)|, false)
              else Replay(ps + [extra], |Log(ps)| + n, false)
  {
    hide Frame;
    hide ReadAll;
    hide WholeRecords;
    LogAppend(ps, extra);
    var all := ps + [extra];
    assert Log(all)[..|Log(ps)| + n] == Log(ps) + Frame(extra)[..n];
    AllRecordsWhole(ps, extra, n);
    PrefixReplays(all, |Log(ps)| + n);
    assert all[..|ps|] == ps && all[..|ps| + 1] == all;
  }

  lemma CleanLogReplays(ps: seq<Bytes>)
    requires AllWritable(ps)
    ensures ReadAll(Log(ps)) == Replay(ps, |Log(ps)|, false)
  {
    hide Frame;
    hide ReadAll;
    var extra: Bytes := [0];
    TornLogReplays(ps, extra, 0);
    assert Log(ps) + Frame(extra)[..0] == Log(ps);
  }

  // ---------- damaged records ----------

  /** A record of the right length with any checksum field and any payload: it is
      accepted exactly when the field is the payload's checksum, little-endian. */
  lemma StoredRecordReads(sum: Bytes, q: Bytes, tail: Bytes)
    requires |sum| == 4 && Writable(q)
    ensures NextRecord(Fixed32(|q|) + sum + q + tail) == if sum == Fixed32(Crc(q)) then Record(q) else Corrupt
  {
    hide Crc;
    hide Fixed32;
    hide Unfixed;
    var file := Fixed32(|q|) + sum + q + tail;
    assert file[..4] == Fixed32(|q|);
    assert file[4..8] == sum;
    assert file[HEADER_SIZE..HEADER_SIZE + |q|] == q;
    Fixed32OfUnfixed(sum);
  }

  /** `bad` is the record of `p` with its checksum field altered, or with its payload
      altered inside a window of four consecutive bytes. */
  ghost predicate Damaged(p: Bytes, bad: Bytes)
    requires Writable(p)
  {
    || (exists sum: Bytes :: |sum| == 4 && sum != Fixed32(Crc(p)) && bad == Fixed32(|p|) + sum + p)
    || (exists pre: Bytes, w: Bytes, w': Bytes, post: Bytes ::
          && p == pre + w + post && |w| == |w'| <= 4 && w != w'
          && bad == Fixed32(|p|) + Fixed32(Crc(p)) + (pre + w' + post))
  }

  lemma DamagedPayloadIsCorrupt(pre: Bytes, w: Bytes, w': Bytes, post: Bytes, tail: Bytes)
    requires Writable(pre + w + post) && |w| == |w'| <= 4 && w != w'
    ensures var p := pre + w + post;
      NextRecord(Fixed32(|p|) + Fixed32(Crc(p)) + (pre + w' + post) + tail) == Corrupt
  {
    hide Crc;
    hide NextRecord;
    var p, q := pre + w + post, pre + w' + post;
    BurstChangesCrc(pre, w, w', post);
    assert Unfixed(Fixed32(Crc(p))) != Unfixed(Fixed32(Crc(q)));
    StoredRecordReads(Fixed32(Crc(p)), q, tail);
  }

  /** A damaged record is reported corrupt, whatever follows it in the file. */
  lemma DamagedIsCorrupt(p: Bytes, bad: Bytes, tail: Bytes)
    requires Writable(p) && Damaged(p, bad)
    ensures NextRecord(bad + tail) == Corrupt
  {
    hide Crc;
    hide NextRecord;
    hide Fixed32;
    if sum: Bytes :| |sum| == 4 && sum != Fixed32(Crc(p)) && bad == Fixed32(|p|) + sum + p {
      StoredRecordReads(sum, p, tail);
    } else {
      var pre: Bytes, w: Bytes, w': Bytes, post: Bytes :|
        && p == pre + w + post && |w| == |w'| <= 4 && w != w'
        && bad == Fixed32(|p|) + Fixed32(Crc(p)) + (pre + w' + post);
      DamagedPayloadIsCorrupt(pre, w, w', post, tail);
    }
  }

  /** A log with one damaged record replays the records before it and is then
      reported corrupt, so nothing after the damage is ever applied. */
  lemma {:induction false} DamagedLogReplays(ps: seq<Bytes>, p: Bytes, bad: Bytes, tail: Bytes)
    requires AllWritable(ps) && Writable(p) && Damaged(p, bad)
    ensures ReadAll(Log(ps) + bad + tail) == Replay(ps, |Log(ps)|, true)
  {
    hide Frame;
    hide NextRecord;
    hide Damaged;
    if ps == [] {
      assert Log(ps) + bad + tail == bad + tail;
      DamagedIsCorrupt(p, bad, tail);
    } else {
      var frame, rest := Frame(ps[0]), Log(ps[1..]) + bad + tail;
      assert Log(ps) + bad + tail == frame + rest;
      NextOfFrame(ps[0], rest);
      assert (frame + rest)[|frame|..] == rest;
      DamagedLogReplays(ps[1..], p, bad, tail);
    }
  }

  // ---------- what any file reads as ----------

  lemma FrameOfRecord(rest: Bytes)
    requires NextRecord(rest).Record?
    ensures Frame(NextRecord(rest).payload) <= rest
  {
    hide Crc;
    hide Unfixed;
    var p := NextRecord(rest).payload;
    Fixed32OfUnfixed(rest[..4]);
    Fixed32OfUnfixed(rest[4..8]);
    hide Fixed32;
    assert Frame(p) == rest[..4] + rest[4..8] + rest[8..8 + |p|];
    assert rest[..4] + rest[4..8] + rest[8..8 + |p|] == rest[..8 + |p|];
  }

  /** A record is read exactly where its frame lies. */
  lemma RecordIsFrame(rest: Bytes, p: Bytes)
    ensures NextRecord(rest) == Record(p) <==> Writable(p) && Frame(p) <= rest
  {
    hide NextRecord;
    hide Frame;
    if Writable(p) && Frame(p) <= rest {
      assert rest == Frame(p) + rest[|Frame(p)|..];
      NextOfFrame(p, rest[|Frame(p)|..]);
    }
    if NextRecord(rest) == Record(p) { FrameOfRecord(rest); }
  }

  /** A length of zero or above the limit is corruption, not the end. */
  lemma BadLengthIsCorrupt(length: nat, more: Bytes)
    requires length < TWO_32 && 4 <= |more| && (length == 0 || MAX_PAYLOAD < length)
    ensures NextRecord(Fixed32(length) + more) == Corrupt
  {
    hide Crc;
    hide Unfixed;
    hide Fixed32;
    assert (Fixed32(length) + more)[..4] == Fixed32(length);
  }

  /** Of any file the reader returns the longest log it begins with: what follows is not a
      record, and whether it is damage or just the end is what it reports. */
  lemma {:induction false} ReadAllIsLongestLog(file: Bytes)
    ensures var r := ReadAll(file);
      && r.validBytes == |Log(r.records)| <= |file| && file[..r.validBytes] == Log(r.records)
      && !NextRecord(file[r.validBytes..]).Record? && r.corrupt == NextRecord(file[r.validBytes..]).Corrupt?
  {
    hide Frame;
    hide NextRecord;
    match NextRecord(file)
    case End => assert file[0..] == file;
    case Corrupt => assert file[0..] == file;
    case Record(p) =>
      var size := HEADER_SIZE + |p|;
      var tail := file[size..];
      ReadAllIsLongestLog(tail);
      RecordIsFrame(file, p);
      var r, t := ReadAll(file), ReadAll(tail);
      assert r.records[1..] == t.records;
      assert file == Frame(p) + tail;
      assert file[r.validBytes..] == tail[t.validBytes..];
  }
}

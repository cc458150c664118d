/** The write-batch payload: first sequence number, operation count, operations. */
module BatchCodec {
  import opened Bytes
  import opened Entries
  import opened Wal

  datatype Op = Put(key: Bytes, value: Bytes) | Delete(key: Bytes)

  const PUT_RECORD: byte := 1
  const DELETE_RECORD: byte := 2
  const BATCH_HEADER: nat := 12
  const OP_HEADER: nat := 5

  /** Every operation gets a legal consecutive sequence number. */
  predicate ValidRange(first: nat, count: nat) {
    && 0 < first <= MAX_SEQUENCE && 0 < count < TWO_32
    && count - 1 <= MAX_SEQUENCE - first
  }

  function OpSize(op: Op): nat {
    OP_HEADER + |op.key| + (if op.Put? then 4 + |op.value| else 0)
  }

  function OpsSize(ops: seq<Op>): nat {
    if ops == [] then 0 else OpSize(ops[0]) + OpsSize(ops[1..])
  }

  predicate Encodable(ops: seq<Op>, first: nat) {
    ValidRange(first, |ops|) && BATCH_HEADER + OpsSize(ops) <= MAX_PAYLOAD
  }

  function EncodeOp(op: Op): (b: Bytes)
    requires OpSize(op) <= MAX_PAYLOAD
    ensures |b| == OpSize(op)
  {
    match op
    case Put(k, v) => [PUT_RECORD] + Fixed32(|k|) + k + Fixed32(|v|) + v
    case Delete(k) => [DELETE_RECORD] + Fixed32(|k|) + k
  }

  function EncodeOps(ops: seq<Op>): (b: Bytes)
    requires OpsSize(ops) <= MAX_PAYLOAD
    ensures |b| == OpsSize(ops)
  {
    if ops == [] then [] else EncodeOp(ops[0]) + EncodeOps(ops[1..])
  }

  function Encode(ops: seq<Op>, first: nat): (r: Option<Bytes>)
    ensures r.Some? ==> Writable(r.value)
  {
    if !Encodable(ops, first) then None
    else Some(Fixed64(first) + Fixed32(|ops|) + EncodeOps(ops))
  }

  /** Takes a length-prefixed string off the front. */
  function TakeString(b: Bytes): (r: Option<(Bytes, Bytes)>)
    ensures r.Some? ==> |r.value.0| < TWO_32 && b == Fixed32(|r.value.0|) + r.value.0 + r.value.1
  {
    if |b| < 4 || |b| - 4 < Unfixed(b[..4]) then None
    else
      Fixed32OfUnfixed(b[..4]);
      var n := Unfixed(b[..4]);
      assert b == b[..4] + b[4..4 + n] + b[4 + n..];
      Some((b[4..4 + n], b[4 + n..]))
  }

  function DecodeOp(b: Bytes): (r: Option<(Op, Bytes)>)
    ensures r.Some? ==> |b| == OpSize(r.value.0) + |r.value.1|
  {
    if b == [] || (b[0] != PUT_RECORD && b[0] != DELETE_RECORD) then None
    else
      match TakeString(b[1..])
      case None => None
      case Some((k, rest)) =>
        if b[0] == DELETE_RECORD then Some((Delete(k), rest))
        else
          match TakeString(rest)
          case None => None
          case Some((v, rest')) => Some((Put(k, v), rest'))
  }

  function DecodeOps(b: Bytes, count: nat): Option<(seq<Op>, Bytes)> {
    if count == 0 then Some(([], b))
    else
      match DecodeOp(b)
      case None => None
      case Some((op, rest)) =>
        match DecodeOps(rest, count - 1)
        case None => None
        case Some((ops, rest')) => Some(([op] + ops, rest'))
  }

  function Decode(b: Bytes): Option<(nat, seq<Op>)> {
    if |b| < BATCH_HEADER || |b| > MAX_PAYLOAD then None
    else
      var first, count, body := Unfixed(b[..8]), Unfixed(b[8..12]), b[12..];
      if !ValidRange(first, count) || count > |body| / OP_HEADER then None
      else
        match DecodeOps(body, count)
        case None => None
        case Some((ops, rest)) => if rest == [] then Some((first, ops)) else None
  }

  // ---------- mutual inverses ----------

  lemma TakeStringOfPut(k: Bytes, tail: Bytes)
    requires |k| < TWO_32
    ensures TakeString(Fixed32(|k|) + k + tail) == Some((k, tail))
  {
    var b := Fixed32(|k|) + k + tail;
    assert b[..4] == Fixed32(|k|);
    assert b[4..4 + |k|] == k && b[4 + |k|..] == tail;
  }

  lemma DecodeOpOfEncode(op: Op, tail: Bytes)
    requires OpSize(op) <= MAX_PAYLOAD
    ensures DecodeOp(EncodeOp(op) + tail) == Some((op, tail))
  {
    hide TakeString;
    hide Fixed32;
    var kind := if op.Put? then PUT_RECORD else DELETE_RECORD;
    var value := if op.Put? then Fixed32(|op.value|) + op.value + tail else tail;
    var rest := Fixed32(|op.key|) + op.key + value;
    assert EncodeOp(op) + tail == [kind] + rest;
    assert ([kind] + rest)[1..] == rest;
    TakeStringOfPut(op.key, value);
    if op.Put? { TakeStringOfPut(op.value, tail); }
  }

  lemma EncodeOpOfDecode(b: Bytes)
    requires DecodeOp(b).Some? && |b| <= MAX_PAYLOAD
    ensures var (op, rest) := DecodeOp(b).value; b == EncodeOp(op) + rest
  {
    var (op, rest) := DecodeOp(b).value;
    assert b == [b[0]] + b[1..];
    var (k, rest0) := TakeString(b[1..]).value;
    if op.Put? {
      var (v, rest1) := TakeString(rest0).value;
      assert b == [b[0]] + Fixed32(|k|) + k + Fixed32(|v|) + v + rest1;
    } else {
      assert b == [b[0]] + Fixed32(|k|) + k + rest0;
    }
  }

  lemma {:induction false} DecodeOpsOfEncode(ops: seq<Op>, tail: Bytes)
    requires OpsSize(ops) <= MAX_PAYLOAD
    ensures DecodeOps(EncodeOps(ops) + tail, |ops|) == Some((ops, tail))
    ensures |ops| * OP_HEADER <= OpsSize(ops)
  {
    if ops == [] {
      assert [] + tail == tail;
    } else {
      assert EncodeOps(ops) + tail == EncodeOp(ops[0]) + (EncodeOps(ops[1..]) + tail);
      DecodeOpOfEncode(ops[0], EncodeOps(ops[1..]) + tail);
      DecodeOpsOfEncode(ops[1..], tail);
      assert [ops[0]] + ops[1..] == ops;
    }
  }

  lemma {:induction false} EncodeOpsOfDecode(b: Bytes, count: nat)
    requires DecodeOps(b, count).Some? && |b| <= MAX_PAYLOAD
    decreases count
    ensures var (ops, rest) := DecodeOps(b, count).value;
      |ops| == count && |b| == OpsSize(ops) + |rest| && b == EncodeOps(ops) + rest
  {
    hide DecodeOp;
    hide EncodeOp;
    if count > 0 {
      EncodeOpOfDecode(b);
      var (op, rest) := DecodeOp(b).value;
      EncodeOpsOfDecode(rest, count - 1);
      var (ops, rest') := DecodeOps(rest, count - 1).value;
      assert ([op] + ops)[1..] == ops;
      assert b == EncodeOp(op) + (EncodeOps(ops) + rest');
    }
  }

  /** Every batch that encodes decodes to itself. */
  lemma DecodeOfEncode(ops: seq<Op>, first: nat)
    requires Encode(ops, first).Some?
    ensures Decode(Encode(ops, first).value) == Some((first, ops))
  {
    var b := Encode(ops, first).value;
    assert b[..8] == Fixed64(first) && b[8..12] == Fixed32(|ops|) && b[12..] == EncodeOps(ops);
    assert EncodeOps(ops) + [] == EncodeOps(ops);
    DecodeOpsOfEncode(ops, []);
  }

  /** Every accepted payload is the encoding of what it decodes to. */
  lemma EncodeOfDecode(b: Bytes)
    requires Decode(b).Some?
    ensures Encode(Decode(b).value.1, Decode(b).value.0) == Some(b)
  {
    hide DecodeOps;
    hide EncodeOps;
    hide OpsSize;
    var first, count, body := Unfixed(b[..8]), Unfixed(b[8..12]), b[12..];
    EncodeOpsOfDecode(body, count);
    var (ops, rest) := DecodeOps(body, count).value;
    Fixed64OfUnfixed(b[..8]);
    Fixed32OfUnfixed(b[8..12]);
    assert b == b[..8] + b[8..12] + b[12..];
    assert EncodeOps(ops) + [] == EncodeOps(ops);
  }

  // ---------- the loops ----------

  lemma {:induction false} OpsSizeAppend(ops: seq<Op>, op: Op)
    ensures OpsSize(ops + [op]) == OpsSize(ops) + OpSize(op)
  {
    hide OpSize;
    if ops == [] {
      assert ops + [op] == [op] && [op][1..] == [];
    } else {
      OpsSizeAppend(ops[1..], op);
      assert (ops + [op])[1..] == ops[1..] + [op];
    }
  }

  lemma {:induction false} OpsSizePrefix(ops: seq<Op>, i: nat)
    requires i <= |ops|
    ensures OpsSize(ops[..i]) <= OpsSize(ops)
    decreases |ops| - i
  {
    hide OpsSize;
    if i == |ops| {
      assert ops[..i] == ops;
    } else {
      assert ops[..i + 1] == ops[..i] + [ops[i]];
      OpsSizeAppend(ops[..i], ops[i]);
      OpsSizePrefix(ops, i + 1);
    }
  }

  lemma {:induction false} EncodeOpsAppend(ops: seq<Op>, op: Op)
    requires OpsSize(ops) + OpSize(op) <= MAX_PAYLOAD
    ensures OpsSize(ops + [op]) == OpsSize(ops) + OpSize(op)
    ensures EncodeOps(ops + [op]) == EncodeOps(ops) + EncodeOp(op)
  {
    hide OpSize;
    hide EncodeOp;
    OpsSizeAppend(ops, op);
    if ops == [] {
      assert ops + [op] == [op] && [op][1..] == [];
    } else {
      EncodeOpsAppend(ops[1..], op);
      assert (ops + [op])[1..] == ops[1..] + [op];
    }
  }

  /** First pass of `encode`: add up field sizes, giving up at the payload limit. */
  method MeasureBatch(ops: seq<Op>) returns (fits: bool)
    ensures fits == (BATCH_HEADER + OpsSize(ops) <= MAX_PAYLOAD)
  {
    var total := BATCH_HEADER;
    assert ops[..0] == [];
    for i := 0 to |ops|
      invariant total == BATCH_HEADER + OpsSize(ops[..i]) <= MAX_PAYLOAD
    {
      assert ops[..i + 1] == ops[..i] + [ops[i]];
      OpsSizeAppend(ops[..i], ops[i]);
      OpsSizePrefix(ops, i + 1);
      if OP_HEADER > MAX_PAYLOAD - total { return false; }
      if |ops[i].key| > MAX_PAYLOAD - total - OP_HEADER { return false; }
      total := total + OP_HEADER + |ops[i].key|;
      if ops[i].Put? {
        if 4 > MAX_PAYLOAD - total || |ops[i].value| > MAX_PAYLOAD - total - 4 { return false; }
        total := total + 4 + |ops[i].value|;
      }
    }
    assert ops[..|ops|] == ops;
    return true;
  }

  /** `WriteBatchCodec::encode`. */
  method EncodeBatch(ops: seq<Op>, first: nat) returns (r: Option<Bytes>)
    ensures r == Encode(ops, first)
  {
    hide EncodeOp;
    hide Fixed32;
    hide Fixed64;
    if |ops| == 0 || !ValidRange(first, |ops|) { return None; }
    var fits := MeasureBatch(ops);
    if !fits { return None; }
    var encoded := Fixed64(first) + Fixed32(|ops|);
    assert ops[..0] == [];
    for i := 0 to |ops|
      invariant OpsSize(ops[..i]) <= MAX_PAYLOAD
      invariant encoded == Fixed64(first) + Fixed32(|ops|) + EncodeOps(ops[..i])
    {
      assert ops[..i + 1] == ops[..i] + [ops[i]];
      OpsSizeAppend(ops[..i], ops[i]);
      OpsSizePrefix(ops, i + 1);
      EncodeOpsAppend(ops[..i], ops[i]);
      encoded := encoded + EncodeOp(ops[i]);
    }
    assert ops[..|ops|] == ops;
    return Some(encoded);
  }

  /** `WriteBatchCodec::decode`: a cursor over the payload. */
  method DecodeBatch(b: Bytes) returns (r: Option<(nat, seq<Op>)>)
    ensures r == Decode(b)
  {
    hide DecodeOp;
    hide Unfixed;
    if |b| < BATCH_HEADER || |b| > MAX_PAYLOAD { return None; }
    var first, count := Unfixed(b[..8]), Unfixed(b[8..12]);
    if !ValidRange(first, count) { return None; }
    var cursor := b[12..];
    if count > |cursor| / OP_HEADER { return None; }
    var ops := [];
    var index := 0;
    assert forall more: seq<Op> :: [] + more == more;
    while index < count
      invariant 0 <= index <= count
      invariant DecodeOps(b[12..], count) ==
        match DecodeOps(cursor, count - index) case None => None case Some((more, rest)) => Some((ops + more, rest))
    {
      var step := DecodeOp(cursor);
      if step.None? { return None; }
      var (op, rest) := step.value;
      assert forall more :: ops + ([op] + more) == (ops + [op]) + more;
      ops, cursor, index := ops + [op], rest, index + 1;
    }
    assert ops + [] == ops;
    if cursor != [] { return None; }
    return Some((first, ops));
  }
}

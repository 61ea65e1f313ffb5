/** The two encodings of a panel's init (command) table and the decoders that
    copy such a table into a fixed-capacity buffer.

    The decoders here are those of the unifykey loaders: every read is preceded
    by a cumulative length check. The device-tree loaders run the same
    decoders on the low bytes of the property's words, with a read position
    equal to the table position and the property's length as the declared length
    (they never fail the check because their precondition says the property is
    long enough). */
module InitTable {
  import opened LcdExternTypes

  /** The table after a decode and the loader's return value (0 or -1). */
  datatype Decoded = Decoded(table: seq<byte>, ret: int)

  /** `t` with `bytes` copied in at offset `at`. */
  function Overwrite(t: seq<byte>, at: nat, bytes: seq<byte>): (r: seq<byte>)
    requires at + |bytes| <= |t|
    ensures |r| == |t|
    decreases |bytes|
  {
    if bytes == [] then t else Overwrite(t[at := bytes[0]], at + 1, bytes[1..])
  }

  /** `t` with the `n` source bytes from `from` copied in at offset `at`, one
      byte at a time, as the loaders' inner `for` loops do. */
  function CopyIn(t: seq<byte>, at: nat, src: seq<byte>, from: nat, n: nat): (r: seq<byte>)
    requires at + n <= |t| && from + n <= |src|
    ensures |r| == |t|
    decreases n
  {
    if n == 0 then t else CopyIn(t[at := src[from]], at + 1, src, from + 1, n - 1)
  }

  function Zeros(n: nat): (z: seq<byte>)
    ensures |z| == n
    ensures forall k :: 0 <= k < n ==> z[k] == 0
  {
    if n == 0 then [] else [0] + Zeros(n - 1)
  }

  /** `src` holds `bytes` from offset `p` on. */
  predicate Holds(src: seq<byte>, p: nat, bytes: seq<byte>)
  {
    p + |bytes| <= |src| && forall k :: 0 <= k < |bytes| ==> src[p + k] == bytes[k]
  }

  // ---------------------------------------------------------------------------
  // Dynamic records: [type][size][size data bytes] ... [INIT_END]
  // ---------------------------------------------------------------------------

  /** One dynamic record. Its type byte is never INIT_END: that byte ends the table. */
  datatype Record = Record(kind: byte, data: seq<byte>)

  predicate WellFormed(r: Record)
  {
    r.kind != INIT_END && |r.data| < 0x100
  }

  predicate AllWellFormed(recs: seq<Record>)
  {
    forall k :: 0 <= k < |recs| ==> WellFormed(recs[k])
  }

  /** The byte form of one dynamic record: type, size, data. */
  function EncodeRecord(r: Record): (e: seq<byte>)
    requires WellFormed(r)
  {
    [r.kind, |r.data|] + r.data
  }

  /** The byte form of a sequence of dynamic records (the END marker not included). */
  function EncodeDynamic(recs: seq<Record>): (e: seq<byte>)
    requires AllWellFormed(recs)
  {
    if recs == [] then [] else EncodeRecord(recs[0]) + EncodeDynamic(recs[1..])
  }

  /** The outcome of one pass of a decoder's loop body: either the loop ends
      with this table and return value, or it goes on with this table
      after consuming `n` source bytes (and advancing `n` table bytes). */
  datatype Step = Stop(d: Decoded) | Next(t: seq<byte>, n: nat)

  /** One pass of the dynamic decoder's loop body at table offset `i`: `t` is
      the table so far, `p` the offset in `src` of the next unread byte, `len`
      the running count of bytes the length check compares with `keyLen`. */
  function DynamicStepAt(t: seq<byte>, src: seq<byte>, i: nat, p: nat, len: int,
                         keyLen: int): (s: Step)
    requires i + SPILL <= |t|
    requires p + (keyLen - len) <= |src|
    ensures s.Stop? ==> |s.d.table| == |t| && (s.d.ret == 0 || s.d.ret == -1)
    ensures s.Next? ==> |s.t| == |t| && 2 <= s.n <= SPILL && len + s.n <= keyLen
  {
    // step 1: type
    if LenCheckFails(keyLen, len + 1) then Stop(Decoded(t[i := INIT_END], -1))
    else if src[p] == INIT_END then Stop(Decoded(t[i := INIT_END], 0))
    // step 2: size
    else if LenCheckFails(keyLen, len + 2) then Stop(Decoded(t[i := INIT_END], -1))
    else
      var size := src[p + 1];
      var t1 := t[i := src[p]][i + 1 := size];
      if size == 0 then Next(t1, 2)
      // step 3: data
      else if LenCheckFails(keyLen, len + 2 + size) then
        Stop(Decoded(Overwrite(t1[i := INIT_END], i + 2, Zeros(size)), -1))
      else Next(CopyIn(t1, i + 2, src, p + 2, size), 2 + size)
  }

  /** The dynamic decoder from table offset `i`: the loop runs while `i < maxLen`. */
  function DynamicDecode(t: seq<byte>, src: seq<byte>, i: nat, p: nat, len: int, keyLen: int,
                         maxLen: nat): (d: Decoded)
    requires |t| >= maxLen + SPILL
    requires p + (keyLen - len) <= |src|
    ensures |d.table| == |t|
    ensures d.ret == 0 || d.ret == -1
    decreases maxLen - i
  {
    if i >= maxLen then Decoded(t, 0)
    else
      match DynamicStepAt(t, src, i, p, len, keyLen)
      case Stop(d) => d
      case Next(t1, n) => DynamicDecode(t1, src, i + n, p + n, len + n, keyLen, maxLen)
  }

  /** The dynamic decoder from table offset `i` and source offset `p` stays
      before source offset `end`. */
  predicate DynamicInBounds(src: seq<byte>, end: nat, i: nat, p: nat, maxLen: nat)
    requires end <= |src|
    decreases maxLen - i
  {
    i >= maxLen ||
    (p < end &&
     (src[p] == INIT_END ||
      (p + 1 < end && p + 2 + src[p + 1] <= end &&
       DynamicInBounds(src, end, i + 2 + src[p + 1], p + 2 + src[p + 1], maxLen))))
  }

  // ---------------------------------------------------------------------------
  // Fixed records: every record `cmdSize` bytes; a record whose first byte is
  // INIT_END ends the table.
  // ---------------------------------------------------------------------------

  predicate FixedRecords(recs: seq<seq<byte>>, cmdSize: nat)
  {
    forall k :: 0 <= k < |recs| ==> |recs[k]| == cmdSize && 0 < |recs[k]| && recs[k][0] != INIT_END
  }

  /** The last record of a fixed table: `cmdSize` bytes, the first one INIT_END. */
  predicate FixedEnd(last: seq<byte>, cmdSize: nat)
  {
    |last| == cmdSize && |last| > 0 && last[0] == INIT_END
  }

  function Flatten(recs: seq<seq<byte>>): seq<byte>
  {
    if recs == [] then [] else recs[0] + Flatten(recs[1..])
  }

  /** One pass of the fixed decoder's loop body; the arguments are those of
      DynamicStepAt. */
  function FixedStepAt(t: seq<byte>, src: seq<byte>, i: nat, p: nat, len: int, keyLen: int,
                       cmdSize: byte): (s: Step)
    requires 1 < cmdSize
    requires i + SPILL <= |t|
    requires p + (keyLen - len) <= |src|
    ensures s.Stop? ==> |s.d.table| == |t| && (s.d.ret == 0 || s.d.ret == -1)
    ensures s.Next? ==> |s.t| == |t| && s.n == cmdSize && len + s.n <= keyLen
  {
    if LenCheckFails(keyLen, len + cmdSize) then Stop(Decoded(t[i := INIT_END], -1))
    else
      var t1 := CopyIn(t, i, src, p, cmdSize);
      if src[p] == INIT_END then Stop(Decoded(t1, 0)) else Next(t1, cmdSize)
  }

  /** The fixed decoder from table offset `i`. */
  function FixedDecode(t: seq<byte>, src: seq<byte>, i: nat, p: nat, len: int, keyLen: int,
                       cmdSize: byte, maxLen: nat): (d: Decoded)
    requires 1 < cmdSize
    requires |t| >= maxLen + SPILL
    requires p + (keyLen - len) <= |src|
    ensures |d.table| == |t|
    ensures d.ret == 0 || d.ret == -1
    decreases maxLen - i
  {
    if i >= maxLen then Decoded(t, 0)
    else
      match FixedStepAt(t, src, i, p, len, keyLen, cmdSize)
      case Stop(d) => d
      case Next(t1, n) => FixedDecode(t1, src, i + n, p + n, len + n, keyLen, cmdSize, maxLen)
  }

  /** The fixed decoder from table offset `i` and source offset `p` stays before
      source offset `end`. */
  predicate FixedInBounds(src: seq<byte>, end: nat, i: nat, p: nat, cmdSize: byte, maxLen: nat)
    requires 1 < cmdSize
    requires end <= |src|
    decreases maxLen - i
  {
    i >= maxLen ||
    (p + cmdSize <= end &&
     (src[p] == INIT_END || FixedInBounds(src, end, i + cmdSize, p + cmdSize, cmdSize, maxLen)))
  }
}

/** What the init-table decoders promise: they read nothing past the declared
    length, they fail exactly when the table would run past it, a well-formed
    table is copied byte for byte up to and including its END marker and
    nothing else changes, and a table cut short leaves END at the start of the
    record that was cut. */
module InitTableLemmas {
  import opened LcdExternTypes
  import opened InitTable

  // ---------------------------------------------------------------------------
  // Table and source algebra
  // ---------------------------------------------------------------------------

  /** Byte `k` of an overwritten table. */
  lemma {:induction false} OverwriteAt(t: seq<byte>, at: nat, bytes: seq<byte>)
    requires at + |bytes| <= |t|
    ensures forall k :: 0 <= k < |t| ==>
              Overwrite(t, at, bytes)[k] == if at <= k < at + |bytes| then bytes[k - at] else t[k]
    decreases |bytes|
  {
    if bytes != [] {
      OverwriteAt(t[at := bytes[0]], at + 1, bytes[1..]);
    }
  }

  lemma OverwriteConcat(t: seq<byte>, i: nat, a: seq<byte>, b: seq<byte>)
    requires i + |a| + |b| <= |t|
    ensures Overwrite(Overwrite(t, i, a), i + |a|, b) == Overwrite(t, i, a + b)
  {
    var l := Overwrite(Overwrite(t, i, a), i + |a|, b);
    var r := Overwrite(t, i, a + b);
    OverwriteAt(t, i, a);
    OverwriteAt(Overwrite(t, i, a), i + |a|, b);
    OverwriteAt(t, i, a + b);
    forall k | 0 <= k < |t| ensures l[k] == r[k] {
      if i + |a| <= k < i + |a| + |b| {
        assert (a + b)[k - i] == b[k - i - |a|];
      } else if i <= k < i + |a| {
        assert (a + b)[k - i] == a[k - i];
      }
    }
    assert l == r;
  }

  /** Copying `|bytes|` source bytes that hold `bytes` writes `bytes`. */
  lemma {:induction false} CopyInHolds(t: seq<byte>, at: nat, src: seq<byte>, from: nat, bytes: seq<byte>)
    requires at + |bytes| <= |t| && Holds(src, from, bytes)
    ensures CopyIn(t, at, src, from, |bytes|) == Overwrite(t, at, bytes)
    decreases |bytes|
  {
    if bytes != [] {
      assert src[from + 0] == bytes[0];
      assert Holds(src, from + 1, bytes[1..]) by {
        forall k | 0 <= k < |bytes[1..]| ensures src[from + 1 + k] == bytes[1..][k] {
          assert src[from + (k + 1)] == bytes[k + 1];
        }
      }
      CopyInHolds(t[at := bytes[0]], at + 1, src, from + 1, bytes[1..]);
    }
  }

  /** A copy depends only on the source bytes it copies. */
  lemma {:induction false} CopyInAgree(t: seq<byte>, at: nat, src1: seq<byte>, src2: seq<byte>,
                                       from: nat, n: nat)
    requires at + n <= |t| && from + n <= |src1| && from + n <= |src2|
    requires forall k :: from <= k < from + n ==> src1[k] == src2[k]
    ensures CopyIn(t, at, src1, from, n) == CopyIn(t, at, src2, from, n)
    decreases n
  {
    if n > 0 {
      CopyInAgree(t[at := src1[from]], at + 1, src1, src2, from + 1, n - 1);
    }
  }

  /** Byte `k` of a table after a copy. */
  lemma {:induction false} CopyInAt(t: seq<byte>, at: nat, src: seq<byte>, from: nat, n: nat)
    requires at + n <= |t| && from + n <= |src|
    ensures forall k :: 0 <= k < |t| ==>
              CopyIn(t, at, src, from, n)[k] == if at <= k < at + n then src[from + k - at] else t[k]
    decreases n
  {
    if n > 0 {
      CopyInAt(t[at := src[from]], at + 1, src, from + 1, n - 1);
    }
  }

  lemma HoldsSplit(src: seq<byte>, p: nat, a: seq<byte>, b: seq<byte>)
    requires Holds(src, p, a + b)
    ensures Holds(src, p, a) && Holds(src, p + |a|, b)
  {
    forall k | 0 <= k < |a| ensures src[p + k] == a[k] {
      assert (a + b)[k] == a[k];
    }
    forall k | 0 <= k < |b| ensures src[p + |a| + k] == b[k] {
      assert src[p + (|a| + k)] == (a + b)[|a| + k];
    }
  }

  lemma RestWellFormed(recs: seq<Record>)
    requires recs != [] && AllWellFormed(recs)
    ensures AllWellFormed(recs[1..])
  {
    forall k | 0 <= k < |recs[1..]| ensures WellFormed(recs[1..][k]) {
      assert recs[1..][k] == recs[k + 1];
    }
  }

  /** The first record of a run and the rest. */
  lemma EncodeFirst(recs: seq<Record>)
    requires recs != [] && AllWellFormed(recs)
    ensures AllWellFormed(recs[1..])
    ensures EncodeDynamic(recs) == EncodeRecord(recs[0]) + EncodeDynamic(recs[1..])
  {
    RestWellFormed(recs);
  }

  // ---------------------------------------------------------------------------
  // Dynamic decoder
  // ---------------------------------------------------------------------------

  /** One pass of the loop body reads only the bytes the length check admits. */
  lemma DynamicStepReadsOnlyDeclared(t: seq<byte>, src1: seq<byte>, src2: seq<byte>,
                                     i: nat, p: nat, len: int, keyLen: int)
    requires i + SPILL <= |t|
    requires p + (keyLen - len) <= |src1| && p + (keyLen - len) <= |src2|
    requires forall k :: p <= k < p + (keyLen - len) ==> src1[k] == src2[k]
    ensures DynamicStepAt(t, src1, i, p, len, keyLen) == DynamicStepAt(t, src2, i, p, len, keyLen)
  {
    if !LenCheckFails(keyLen, len + 2) {
      var size := src1[p + 1];
      assert src2[p] == src1[p] && src2[p + 1] == size;
      if !LenCheckFails(keyLen, len + 2 + size) {
        CopyInAgree(t[i := src1[p]][i + 1 := size], i + 2, src1, src2, p + 2, size);
      }
    }
  }

  /** No over-read: the decode depends only on the `keyLen - len` bytes that the
      length check admits. */
  lemma {:induction false} DynamicReadsOnlyDeclared(t: seq<byte>, src1: seq<byte>, src2: seq<byte>,
                                                     i: nat, p: nat, len: int, keyLen: int, maxLen: nat)
    requires |t| >= maxLen + SPILL
    requires p + (keyLen - len) <= |src1| && p + (keyLen - len) <= |src2|
    requires forall k :: p <= k < p + (keyLen - len) ==> src1[k] == src2[k]
    ensures DynamicDecode(t, src1, i, p, len, keyLen, maxLen) == DynamicDecode(t, src2, i, p, len, keyLen, maxLen)
    decreases maxLen - i
  {
    if i < maxLen {
      DynamicStepReadsOnlyDeclared(t, src1, src2, i, p, len, keyLen);
      var s := DynamicStepAt(t, src1, i, p, len, keyLen);
      if s.Next? {
        DynamicReadsOnlyDeclared(s.t, src1, src2, i + s.n, p + s.n, len + s.n, keyLen, maxLen);
      }
    }
  }

  /** One pass of the loop body fails exactly when the record at `p` does not
      fit before `end`, ends the table with 0 exactly at an END inside `end`,
      and otherwise moves on by exactly the record's size. */
  lemma DynamicStepInBounds(t: seq<byte>, src: seq<byte>, i: nat, p: nat, len: int, keyLen: int,
                            maxLen: nat)
    requires |t| >= maxLen + SPILL && i < maxLen
    requires len <= keyLen && p + (keyLen - len) <= |src|
    ensures var s := DynamicStepAt(t, src, i, p, len, keyLen);
            var end := p + (keyLen - len);
            DynamicInBounds(src, end, i, p, maxLen)
            <==> (if s.Stop? then s.d.ret == 0 else DynamicInBounds(src, end, i + s.n, p + s.n, maxLen))
  {
  }

  /** The decode fails (returns -1) exactly when the table, read from `p`,
      would run past the declared length. */
  lemma {:induction false} DynamicSucceedsIff(t: seq<byte>, src: seq<byte>, i: nat, p: nat, len: int,
                                              keyLen: int, maxLen: nat)
    requires |t| >= maxLen + SPILL
    requires len <= keyLen && p + (keyLen - len) <= |src|
    ensures DynamicDecode(t, src, i, p, len, keyLen, maxLen).ret == 0
            <==> DynamicInBounds(src, p + (keyLen - len), i, p, maxLen)
    decreases maxLen - i
  {
    if i < maxLen {
      DynamicStepInBounds(t, src, i, p, len, keyLen, maxLen);
      var s := DynamicStepAt(t, src, i, p, len, keyLen);
      if s.Next? {
        DynamicSucceedsIff(s.t, src, i + s.n, p + s.n, len + s.n, keyLen, maxLen);
      }
    }
  }

  /** One record step: a record whose type, size and data pass the length
      check is copied to `i` and the loop goes on right after it. */
  lemma DynamicStep(t: seq<byte>, src: seq<byte>, i: nat, p: nat, len: int, keyLen: int,
                    r: Record)
    requires i + SPILL <= |t|
    requires p + (keyLen - len) <= |src|
    requires WellFormed(r)
    requires len + |EncodeRecord(r)| <= keyLen
    requires Holds(src, p, EncodeRecord(r))
    ensures DynamicStepAt(t, src, i, p, len, keyLen)
         == Next(Overwrite(t, i, EncodeRecord(r)), |EncodeRecord(r)|)
  {
    var size := |r.data|;
    var head: seq<byte> := [r.kind, size];
    var e := EncodeRecord(r);
    assert src[p + 0] == e[0] == r.kind;
    assert src[p + 1] == e[1] == size;
    var t1 := t[i := r.kind][i + 1 := size];
    assert t1 == Overwrite(t, i, head) by {
      assert head[1..] == [size];
      assert Overwrite(t[i := r.kind], i + 1, [size]) == Overwrite(t1, i + 2, []);
    }
    HoldsSplit(src, p, head, r.data);
    CopyInHolds(t1, i + 2, src, p + 2, r.data);
    OverwriteConcat(t, i, head, r.data);
    if size == 0 {
      assert e == head;
    }
  }

  /** The END step: a type byte equal to END that passes the length check is
      written and the loop ends with 0. */
  lemma DynamicEndStep(t: seq<byte>, src: seq<byte>, i: nat, p: nat, len: int, keyLen: int)
    requires i + SPILL <= |t|
    requires p + (keyLen - len) <= |src|
    requires len + 1 <= keyLen && src[p] == INIT_END
    ensures DynamicStepAt(t, src, i, p, len, keyLen) == Stop(Decoded(Overwrite(t, i, [INIT_END]), 0))
  {
    assert Overwrite(t, i, [INIT_END]) == Overwrite(t[i := INIT_END], i + 1, []);
  }

  /** One pass that goes on: the decode from `i` is the decode from where the
      pass leaves off. */
  lemma DynamicUnfoldNext(t: seq<byte>, src: seq<byte>, i: nat, p: nat, len: int, keyLen: int,
                          maxLen: nat, t1: seq<byte>, n: nat)
    requires |t| >= maxLen + SPILL && i < maxLen
    requires p + (keyLen - len) <= |src|
    requires DynamicStepAt(t, src, i, p, len, keyLen) == Next(t1, n)
    ensures |t1| == |t| && len + n <= keyLen
    ensures DynamicDecode(t, src, i, p, len, keyLen, maxLen)
         == DynamicDecode(t1, src, i + n, p + n, len + n, keyLen, maxLen)
  {
  }

  /** The first record of a run passes all three checks: the decode from `i`
      is the decode of the remaining records from the byte after it. */
  lemma DynamicFirstRecord(t: seq<byte>, src: seq<byte>, i: nat, p: nat, len: int, keyLen: int,
                           maxLen: nat, recs: seq<Record>, rest: seq<byte>)
    requires |t| >= maxLen + SPILL && i < maxLen
    requires p + (keyLen - len) <= |src|
    requires recs != [] && AllWellFormed(recs)
    requires len + |EncodeDynamic(recs)| <= keyLen
    requires Holds(src, p, EncodeDynamic(recs) + rest)
    ensures AllWellFormed(recs[1..])
    ensures EncodeDynamic(recs) == EncodeRecord(recs[0]) + EncodeDynamic(recs[1..])
    ensures Holds(src, p + |EncodeRecord(recs[0])|, EncodeDynamic(recs[1..]) + rest)
    ensures DynamicDecode(t, src, i, p, len, keyLen, maxLen)
         == DynamicDecode(Overwrite(t, i, EncodeRecord(recs[0])), src, i + |EncodeRecord(recs[0])|,
                          p + |EncodeRecord(recs[0])|, len + |EncodeRecord(recs[0])|, keyLen, maxLen)
  {
    EncodeFirst(recs);
    var e1 := EncodeRecord(recs[0]);
    var er := EncodeDynamic(recs[1..]);
    assert EncodeDynamic(recs) + rest == e1 + (er + rest);
    HoldsSplit(src, p, e1, er + rest);
    DynamicStep(t, src, i, p, len, keyLen, recs[0]);
    DynamicUnfoldNext(t, src, i, p, len, keyLen, maxLen, Overwrite(t, i, e1), |e1|);
  }

  /** Round trip: a well-formed table followed by END, inside the declared length
      and ending below `maxLen`, is copied exactly (all records and the END
      marker) and the decode returns 0; no other byte of the buffer changes. */
  lemma {:induction false} DynamicRoundTrip(t: seq<byte>, src: seq<byte>, i: nat, p: nat, len: int,
                                            keyLen: int, maxLen: nat, recs: seq<Record>)
    requires |t| >= maxLen + SPILL
    requires p + (keyLen - len) <= |src|
    requires AllWellFormed(recs)
    requires len + |EncodeDynamic(recs)| + 1 <= keyLen
    requires Holds(src, p, EncodeDynamic(recs) + [INIT_END])
    requires i + |EncodeDynamic(recs)| < maxLen
    ensures DynamicDecode(t, src, i, p, len, keyLen, maxLen)
         == Decoded(Overwrite(t, i, EncodeDynamic(recs) + [INIT_END]), 0)
    decreases |recs|
  {
    if recs == [] {
      assert EncodeDynamic(recs) + [INIT_END] == [INIT_END];
      assert src[p + 0] == [INIT_END][0];
      DynamicEndStep(t, src, i, p, len, keyLen);
    } else {
      DynamicFirstRecord(t, src, i, p, len, keyLen, maxLen, recs, [INIT_END]);
      var e1 := EncodeRecord(recs[0]);
      var er := EncodeDynamic(recs[1..]);
      DynamicRoundTrip(Overwrite(t, i, e1), src, i + |e1|, p + |e1|, len + |e1|, keyLen, maxLen, recs[1..]);
      OverwriteConcat(t, i, e1, er + [INIT_END]);
      assert e1 + (er + [INIT_END]) == EncodeDynamic(recs) + [INIT_END];
    }
  }

  /** The table a cut record leaves at offset `q` when `b` of its bytes were
      declared: END at its start and, once its size byte was readable, that size
      followed by `s` zero bytes. */
  function CutTable(t: seq<byte>, q: nat, b: int, s: byte): (r: seq<byte>)
    requires q + 2 + s <= |t|
    ensures |r| == |t| && r[q] == INIT_END
  {
    if b < 2 then t[q := INIT_END]
    else
      OverwriteAt(t[q := INIT_END][q + 1 := s], q + 2, Zeros(s));
      Overwrite(t[q := INIT_END][q + 1 := s], q + 2, Zeros(s))
  }

  /** The last, cut step: the declared bytes from `p` are a proper prefix of one
      record's encoding. */
  lemma DynamicCutStep(t: seq<byte>, src: seq<byte>, i: nat, p: nat, len: int, keyLen: int,
                       next: Record)
    requires i + SPILL <= |t|
    requires p + (keyLen - len) <= |src|
    requires WellFormed(next)
    requires len <= keyLen < len + |EncodeRecord(next)|
    requires Holds(src, p, EncodeRecord(next)[.. keyLen - len])
    ensures DynamicStepAt(t, src, i, p, len, keyLen)
            == Stop(Decoded(CutTable(t, i, keyLen - len, |next.data|), -1))
  {
    var b := keyLen - len;
    var e := EncodeRecord(next);
    if b >= 1 { assert src[p + 0] == e[.. b][0] == next.kind; }
    if b >= 2 {
      assert src[p + 1] == e[.. b][1] == |next.data|;
      assert t[i := next.kind][i + 1 := |next.data|][i := INIT_END]
          == t[i := INIT_END][i + 1 := |next.data|];
    }
  }

  /** A table cut short inside record `next` (the declared bytes are the
      encoding of `recs` and the first `b` bytes of `next`'s, `b` short of the
      whole record): the earlier records are copied, `next`'s type byte, at
      table offset `q`, becomes END, and when the cut falls in its data the
      size byte is kept and the data bytes are zeroed; the decode returns -1. */
  lemma {:induction false} DynamicTruncated(t: seq<byte>, src: seq<byte>, i: nat, p: nat, len: int,
                                            keyLen: int, maxLen: nat, recs: seq<Record>, next: Record,
                                            q: nat, b: nat)
    requires |t| >= maxLen + SPILL
    requires p + (keyLen - len) <= |src|
    requires AllWellFormed(recs) && WellFormed(next)
    requires q == i + |EncodeDynamic(recs)| < maxLen
    requires b == keyLen - len - |EncodeDynamic(recs)| < |EncodeRecord(next)|
    requires Holds(src, p, EncodeDynamic(recs) + EncodeRecord(next)[.. b])
    ensures DynamicDecode(t, src, i, p, len, keyLen, maxLen)
         == Decoded(CutTable(Overwrite(t, i, EncodeDynamic(recs)), q, b, |next.data|), -1)
    decreases |recs|, 1
  {
    if recs == [] {
      DynamicCutLast(t, src, i, p, len, keyLen, maxLen, next, b);
    } else {
      DynamicTruncatedFirst(t, src, i, p, len, keyLen, maxLen, recs, next, q, b);
    }
  }

  /** DynamicTruncated when no record precedes the cut one. */
  lemma DynamicCutLast(t: seq<byte>, src: seq<byte>, i: nat, p: nat, len: int,
                       keyLen: int, maxLen: nat, next: Record, b: nat)
    requires |t| >= maxLen + SPILL && i < maxLen
    requires p + (keyLen - len) <= |src|
    requires WellFormed(next)
    requires b == keyLen - len < |EncodeRecord(next)|
    requires Holds(src, p, EncodeDynamic([]) + EncodeRecord(next)[.. b])
    ensures EncodeDynamic([]) == [] && Overwrite(t, i, []) == t
    ensures DynamicDecode(t, src, i, p, len, keyLen, maxLen)
         == Decoded(CutTable(t, i, b, |next.data|), -1)
  {
    assert EncodeDynamic([]) + EncodeRecord(next)[.. b] == EncodeRecord(next)[.. b];
    DynamicCutStep(t, src, i, p, len, keyLen, next);
  }

  /** DynamicTruncated when a whole record precedes the cut one. */
  lemma {:induction false} DynamicTruncatedFirst(t: seq<byte>, src: seq<byte>, i: nat, p: nat, len: int,
                                                 keyLen: int, maxLen: nat, recs: seq<Record>, next: Record,
                                                 q: nat, b: nat)
    requires |t| >= maxLen + SPILL
    requires p + (keyLen - len) <= |src|
    requires recs != [] && AllWellFormed(recs) && WellFormed(next)
    requires q == i + |EncodeDynamic(recs)| < maxLen
    requires b == keyLen - len - |EncodeDynamic(recs)| < |EncodeRecord(next)|
    requires Holds(src, p, EncodeDynamic(recs) + EncodeRecord(next)[.. b])
    ensures DynamicDecode(t, src, i, p, len, keyLen, maxLen)
         == Decoded(CutTable(Overwrite(t, i, EncodeDynamic(recs)), q, b, |next.data|), -1)
    decreases |recs|, 0
  {
    DynamicFirstRecord(t, src, i, p, len, keyLen, maxLen, recs, EncodeRecord(next)[.. b]);
    var e1 := EncodeRecord(recs[0]);
    var t1 := Overwrite(t, i, e1);
    DynamicTruncated(t1, src, i + |e1|, p + |e1|, len + |e1|, keyLen, maxLen, recs[1..], next, q, b);
    OverwriteConcat(t, i, e1, EncodeDynamic(recs[1..]));
  }

  /** A table copied to offset 0 is a prefix of the result. */
  lemma OverwriteFront(t: seq<byte>, bytes: seq<byte>)
    requires |bytes| <= |t|
    ensures Overwrite(t, 0, bytes) == bytes + t[|bytes|..]
  {
    OverwriteAt(t, 0, bytes);
  }

  /** As the loop is written, a record that starts below `maxLen` but ends at
      or past it is copied whole, into the spill area, and the decode returns 0
      without writing END: the loop test only looks at where a record starts.
      This holds at every table offset `i`, source offset `p` and running
      length `len`. */
  lemma DynamicOverrunAccepted(t: seq<byte>, src: seq<byte>, i: nat, p: nat, len: int, keyLen: int,
                               maxLen: nat, r: Record)
    requires WellFormed(r)
    requires |t| >= maxLen + SPILL
    requires i < maxLen <= i + |EncodeRecord(r)|
    requires p + (keyLen - len) <= |src|
    requires len + |EncodeRecord(r)| <= keyLen
    requires Holds(src, p, EncodeRecord(r))
    ensures var e := EncodeRecord(r);
            var d := DynamicDecode(t, src, i, p, len, keyLen, maxLen);
            d == Decoded(Overwrite(t, i, e), 0) &&
            forall k :: i <= k < i + |e| ==> d.table[k] == e[k - i]
  {
    var e := EncodeRecord(r);
    DynamicStep(t, src, i, p, len, keyLen, r);
    DynamicUnfoldNext(t, src, i, p, len, keyLen, maxLen, Overwrite(t, i, e), |e|);
    OverwriteAt(t, i, e);
  }

  /** A record of size 0 takes exactly two table bytes, its type and its size:
      the decode goes on with the next record at `i + 2` and `p + 2`. */
  lemma DynamicEmptyRecord(t: seq<byte>, src: seq<byte>, i: nat, p: nat, len: int, keyLen: int,
                           maxLen: nat)
    requires |t| >= maxLen + SPILL && i < maxLen
    requires p + (keyLen - len) <= |src|
    requires len + 2 <= keyLen
    requires src[p] != INIT_END && src[p + 1] == 0
    ensures DynamicDecode(t, src, i, p, len, keyLen, maxLen)
         == DynamicDecode(t[i := src[p]][i + 1 := 0], src, i + 2, p + 2, len + 2, keyLen, maxLen)
  {
    var r := Record(src[p], []);
    assert EncodeRecord(r) == src[p..p + 2];
    assert Holds(src, p, EncodeRecord(r));
    DynamicStep(t, src, i, p, len, keyLen, r);
    assert Overwrite(t, i, EncodeRecord(r)) == t[i := src[p]][i + 1 := 0] by {
      OverwriteAt(t, i, EncodeRecord(r));
    }
    DynamicUnfoldNext(t, src, i, p, len, keyLen, maxLen, t[i := src[p]][i + 1 := 0], 2);
  }

  // ---------------------------------------------------------------------------
  // Fixed decoder
  // ---------------------------------------------------------------------------

  /** No over-read, for fixed records. */
  lemma {:induction false} FixedReadsOnlyDeclared(t: seq<byte>, src1: seq<byte>, src2: seq<byte>,
                                                   i: nat, p: nat, len: int, keyLen: int,
                                                   cmdSize: byte, maxLen: nat)
    requires 1 < cmdSize
    requires |t| >= maxLen + SPILL
    requires p + (keyLen - len) <= |src1| && p + (keyLen - len) <= |src2|
    requires forall k :: p <= k < p + (keyLen - len) ==> src1[k] == src2[k]
    ensures FixedDecode(t, src1, i, p, len, keyLen, cmdSize, maxLen)
         == FixedDecode(t, src2, i, p, len, keyLen, cmdSize, maxLen)
    decreases maxLen - i
  {
    if i < maxLen && !LenCheckFails(keyLen, len + cmdSize) {
      CopyInAgree(t, i, src1, src2, p, cmdSize);
      assert src1[p] == src2[p];
      var s := FixedStepAt(t, src1, i, p, len, keyLen, cmdSize);
      assert s == FixedStepAt(t, src2, i, p, len, keyLen, cmdSize);
      if s.Next? {
        FixedReadsOnlyDeclared(s.t, src1, src2, i + cmdSize, p + cmdSize, len + cmdSize, keyLen,
                               cmdSize, maxLen);
      }
    }
  }

  /** The fixed decode fails exactly when a record would run past the declared length. */
  lemma {:induction false} FixedSucceedsIff(t: seq<byte>, src: seq<byte>, i: nat, p: nat, len: int,
                                            keyLen: int, cmdSize: byte, maxLen: nat)
    requires 1 < cmdSize
    requires |t| >= maxLen + SPILL
    requires len <= keyLen && p + (keyLen - len) <= |src|
    ensures FixedDecode(t, src, i, p, len, keyLen, cmdSize, maxLen).ret == 0
            <==> FixedInBounds(src, p + (keyLen - len), i, p, cmdSize, maxLen)
    decreases maxLen - i
  {
    if i < maxLen {
      var s := FixedStepAt(t, src, i, p, len, keyLen, cmdSize);
      if s.Next? {
        FixedSucceedsIff(s.t, src, i + cmdSize, p + cmdSize, len + cmdSize, keyLen, cmdSize, maxLen);
      }
    }
  }

  lemma RestFixed(recs: seq<seq<byte>>, cmdSize: nat)
    requires recs != [] && FixedRecords(recs, cmdSize)
    ensures FixedRecords(recs[1..], cmdSize)
  {
    forall k | 0 <= k < |recs[1..]|
      ensures |recs[1..][k]| == cmdSize && 0 < |recs[1..][k]| && recs[1..][k][0] != INIT_END
    {
      assert recs[1..][k] == recs[k + 1];
    }
  }

  /** One fixed record step: a record that passes the length check and does not
      start with END is copied and the loop goes on `cmdSize` bytes later. */
  lemma FixedStep(t: seq<byte>, src: seq<byte>, i: nat, p: nat, len: int, keyLen: int,
                  cmdSize: byte, r: seq<byte>)
    requires 1 < cmdSize
    requires i + SPILL <= |t|
    requires p + (keyLen - len) <= |src|
    requires len + cmdSize <= keyLen
    requires |r| == cmdSize && Holds(src, p, r) && r[0] != INIT_END
    ensures FixedStepAt(t, src, i, p, len, keyLen, cmdSize) == Next(Overwrite(t, i, r), cmdSize)
  {
    assert src[p + 0] == r[0];
    CopyInHolds(t, i, src, p, r);
  }

  /** The last fixed record step: a record starting with END is copied whole and
      the loop ends with 0. */
  lemma FixedEndStep(t: seq<byte>, src: seq<byte>, i: nat, p: nat, len: int, keyLen: int,
                     cmdSize: byte, last: seq<byte>)
    requires 1 < cmdSize
    requires i + SPILL <= |t|
    requires p + (keyLen - len) <= |src|
    requires len + cmdSize <= keyLen
    requires FixedEnd(last, cmdSize) && Holds(src, p, last)
    ensures FixedStepAt(t, src, i, p, len, keyLen, cmdSize) == Stop(Decoded(Overwrite(t, i, last), 0))
  {
    assert src[p + 0] == last[0];
    CopyInHolds(t, i, src, p, last);
  }

  lemma FixedUnfoldNext(t: seq<byte>, src: seq<byte>, i: nat, p: nat, len: int, keyLen: int,
                        cmdSize: byte, maxLen: nat, t1: seq<byte>)
    requires 1 < cmdSize
    requires |t| >= maxLen + SPILL && i < maxLen
    requires p + (keyLen - len) <= |src|
    requires FixedStepAt(t, src, i, p, len, keyLen, cmdSize) == Next(t1, cmdSize)
    ensures |t1| == |t| && len + cmdSize <= keyLen
    ensures FixedDecode(t, src, i, p, len, keyLen, cmdSize, maxLen)
         == FixedDecode(t1, src, i + cmdSize, p + cmdSize, len + cmdSize, keyLen, cmdSize, maxLen)
  {
  }

  /** Round trip of a fixed table: records, then a record starting with END,
      all inside the declared length: the table receives exactly those bytes,
      END record included, the decode returns 0 and no other byte changes. */
  lemma {:induction false} FixedRoundTrip(t: seq<byte>, src: seq<byte>, i: nat, p: nat, len: int,
                                          keyLen: int, cmdSize: byte, maxLen: nat,
                                          recs: seq<seq<byte>>, last: seq<byte>)
    requires 1 < cmdSize
    requires |t| >= maxLen + SPILL
    requires p + (keyLen - len) <= |src|
    requires FixedRecords(recs, cmdSize) && FixedEnd(last, cmdSize)
    requires len + |Flatten(recs)| + cmdSize <= keyLen
    requires Holds(src, p, Flatten(recs) + last)
    requires i + |Flatten(recs)| < maxLen
    ensures FixedDecode(t, src, i, p, len, keyLen, cmdSize, maxLen)
         == Decoded(Overwrite(t, i, Flatten(recs) + last), 0)
    decreases |recs|
  {
    if recs == [] {
      assert Flatten(recs) + last == last;
      FixedEndStep(t, src, i, p, len, keyLen, cmdSize, last);
    } else {
      RestFixed(recs, cmdSize);
      var r := recs[0];
      var fr := Flatten(recs[1..]);
      assert Flatten(recs) + last == r + (fr + last);
      HoldsSplit(src, p, r, fr + last);
      var t1 := Overwrite(t, i, r);
      FixedStep(t, src, i, p, len, keyLen, cmdSize, r);
      FixedUnfoldNext(t, src, i, p, len, keyLen, cmdSize, maxLen, t1);
      FixedRoundTrip(t1, src, i + cmdSize, p + cmdSize, len + cmdSize, keyLen, cmdSize, maxLen,
                     recs[1..], last);
      OverwriteConcat(t, i, r, fr + last);
    }
  }

  /** Every record is length-checked whole before any of its bytes is copied:
      when the declared length ends inside a record, the earlier records are in
      the table, the cut record contributes only the END written at its start, and
      the decode returns -1. */
  lemma {:induction false} FixedTruncated(t: seq<byte>, src: seq<byte>, i: nat, p: nat, len: int,
                                          keyLen: int, cmdSize: byte, maxLen: nat,
                                          recs: seq<seq<byte>>)
    requires 1 < cmdSize
    requires |t| >= maxLen + SPILL
    requires p + (keyLen - len) <= |src|
    requires FixedRecords(recs, cmdSize)
    requires len + |Flatten(recs)| <= keyLen < len + |Flatten(recs)| + cmdSize
    requires Holds(src, p, Flatten(recs))
    requires i + |Flatten(recs)| < maxLen
    ensures FixedDecode(t, src, i, p, len, keyLen, cmdSize, maxLen)
         == Decoded(Overwrite(t, i, Flatten(recs))[i + |Flatten(recs)| := INIT_END], -1)
    decreases |recs|
  {
    if recs == [] {
      assert Overwrite(t, i, []) == t;
    } else {
      RestFixed(recs, cmdSize);
      var r := recs[0];
      var fr := Flatten(recs[1..]);
      HoldsSplit(src, p, r, fr);
      var t1 := Overwrite(t, i, r);
      FixedStep(t, src, i, p, len, keyLen, cmdSize, r);
      FixedUnfoldNext(t, src, i, p, len, keyLen, cmdSize, maxLen, t1);
      FixedTruncated(t1, src, i + cmdSize, p + cmdSize, len + cmdSize, keyLen, cmdSize, maxLen,
                     recs[1..]);
      OverwriteConcat(t, i, r, fr);
    }
  }

  lemma {:induction false} FlattenLength(recs: seq<seq<byte>>, cmdSize: nat)
    requires FixedRecords(recs, cmdSize)
    ensures |Flatten(recs)| == |recs| * cmdSize
  {
    if recs != [] {
      RestFixed(recs, cmdSize);
      FlattenLength(recs[1..], cmdSize);
      assert |recs| * cmdSize == cmdSize + (|recs| - 1) * cmdSize;
    }
  }

  /** Records of a fixed table sit at offsets that are multiples of `cmdSize`:
      byte `j` of record `k` is byte `k * cmdSize + j` of the table. */
  lemma {:induction false} FixedRecordAt(recs: seq<seq<byte>>, cmdSize: nat, k: nat, j: nat)
    requires FixedRecords(recs, cmdSize)
    requires k < |recs| && j < cmdSize
    ensures k * cmdSize + j < |Flatten(recs)|
    ensures Flatten(recs)[k * cmdSize + j] == recs[k][j]
    decreases k
  {
    assert Flatten(recs) == recs[0] + Flatten(recs[1..]);
    if k > 0 {
      RestFixed(recs, cmdSize);
      FixedRecordAt(recs[1..], cmdSize, k - 1, j);
      assert k * cmdSize + j == cmdSize + ((k - 1) * cmdSize + j);
      assert recs[1..][k - 1] == recs[k];
    }
  }
}

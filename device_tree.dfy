/** The parts of a flattened device tree that the driver reads: nodes found by
    path, properties found by name, 32-bit big-endian cells, NUL-terminated
    strings and NUL-separated string lists. */
module DeviceTree {
  import opened LcdExternTypes

  /** The properties of one node: name to raw value bytes. */
  type Node = map<string, seq<byte>>
  /** The nodes of a tree: path to node. */
  type Tree = map<string, Node>

  /** `fdt_path_offset` followed by `fdt_getprop`: the value of a property, or
      None (a NULL pointer) when the node or the property is missing. */
  function GetProp(tree: Tree, path: string, name: string): (r: Option<seq<byte>>)
    ensures r.Some? <==> path in tree && name in tree[path]
    ensures r.Some? ==> r.value == tree[path][name]
  {
    if path in tree && name in tree[path] then Some(tree[path][name]) else None
  }

  /** `fdt_getprop` on a node that exists. */
  function NodeProp(node: Node, name: string): (r: Option<seq<byte>>)
    ensures r.Some? <==> name in node
    ensures r.Some? ==> r.value == node[name]
  {
    if name in node then Some(node[name]) else None
  }

  /** Byte `k` of a property value, for the string readers and the cell
      readers alike: bytes past the end read as 0 (NUL). */
  function ByteAt(prop: seq<byte>, k: nat): byte
  {
    if k < |prop| then prop[k] else 0
  }

  /** `be32_to_cpup` applied to word `k` of a property value. */
  function Be32At(prop: seq<byte>, k: nat): (w: u32)
  {
    ByteAt(prop, 4 * k) as int * 0x100_0000 + ByteAt(prop, 4 * k + 1) as int * 0x1_0000
      + ByteAt(prop, 4 * k + 2) as int * 0x100 + ByteAt(prop, 4 * k + 3) as int
  }

  /** The first cell of a property. */
  function Cell(prop: seq<byte>): u32
  {
    Be32At(prop, 0)
  }

  /** The `(unsigned char)` cast: the low byte of a word. */
  function LowByte(w: u32): byte
  {
    w % 0x100
  }

  /** A one-cell property stored into a byte field, or `dflt` when the
      property is missing. */
  function CellByte(node: Node, name: string, dflt: byte): byte
  {
    if name in node then LowByte(Cell(node[name])) else dflt
  }

  /** The table byte a device-tree loader takes from word `k`: its low byte. */
  function WordByte(prop: seq<byte>, k: nat): byte
  {
    LowByte(Be32At(prop, k))
  }

  /** The bytes a device-tree table loader sees: one per whole word of the
      property. */
  function DtsBytes(prop: seq<byte>): (bs: seq<byte>)
    ensures |bs| == |prop| / 4
    ensures forall k :: 0 <= k < |bs| ==> bs[k] == WordByte(prop, k)
  {
    seq(|prop| / 4, k requires 0 <= k < |prop| / 4 => WordByte(prop, k))
  }

  /** A table byte is the last byte of its big-endian word. */
  lemma DtsByteIsLastOfWord(prop: seq<byte>, k: nat)
    requires k < |prop| / 4
    ensures DtsBytes(prop)[k] == prop[4 * k + 3]
  {
    var w: int := Be32At(prop, k);
    var hi: int := prop[4 * k] as int * 0x1_0000 + prop[4 * k + 1] as int * 0x100 + prop[4 * k + 2] as int;
    assert w == hi * 0x100 + prop[4 * k + 3] as int;
  }

  /** How a device tree stores a byte table: each byte in its own big-endian word. */
  function EncodeWords(bs: seq<byte>): (prop: seq<byte>)
    ensures |prop| == 4 * |bs|
  {
    if bs == [] then [] else [0, 0, 0, bs[0]] + EncodeWords(bs[1..])
  }

  lemma {:induction false} EncodeWordsAt(bs: seq<byte>, k: nat)
    requires k < |bs|
    ensures EncodeWords(bs)[4 * k + 3] == bs[k]
    ensures EncodeWords(bs)[4 * k] == 0
  {
    if k > 0 {
      EncodeWordsAt(bs[1..], k - 1);
      assert EncodeWords(bs) == [0, 0, 0, bs[0]] + EncodeWords(bs[1..]);
    }
  }

  /** Round trip: a table written one byte per word reads back unchanged. */
  lemma DtsBytesOfEncodeWords(bs: seq<byte>)
    ensures DtsBytes(EncodeWords(bs)) == bs
  {
    var prop := EncodeWords(bs);
    forall k | 0 <= k < |bs| ensures DtsBytes(prop)[k] == bs[k] {
      DtsByteIsLastOfWord(prop, k);
      EncodeWordsAt(bs, k);
    }
  }

  /** The NUL-terminated string that starts at offset `from` (the bytes before
      the first NUL). */
  function CString(prop: seq<byte>, from: nat): (s: seq<byte>)
    ensures from + |s| <= |prop| || s == []
    ensures forall k :: 0 <= k < |s| ==> s[k] != 0 && s[k] == prop[from + k]
    ensures ByteAt(prop, from + |s|) == 0
    decreases |prop| - from
  {
    if from >= |prop| || prop[from] == 0 then [] else [prop[from]] + CString(prop, from + 1)
  }

  /** A NUL at offset `z` bounds the string that starts at or before it. */
  lemma {:induction false} CStringBound(prop: seq<byte>, from: nat, z: nat)
    requires from <= z < |prop| && prop[z] == 0
    ensures |CString(prop, from)| <= z - from
    decreases z - from
  {
    if from < z && prop[from] != 0 {
      CStringBound(prop, from + 1, z);
    }
  }

  predicate HasPrefix(s: seq<byte>, pre: seq<byte>)
  {
    |pre| <= |s| && s[..|pre|] == pre
  }

  /** The bytes of an ASCII string literal. */
  function Ascii(s: string): (b: seq<byte>)
    ensures |b| == |s|
  {
    seq(|s|, k requires 0 <= k < |s| => (s[k] as int) % 0x100)
  }

  /** The decimal digits `sprintf("%d")` prints for a non-negative number. */
  function Digits(n: nat): (s: string)
    ensures |s| > 0
    ensures forall k :: 0 <= k < |s| ==> '0' <= s[k] <= '9'
    decreases n
  {
    if n < 10 then [(n + '0' as int) as char] else Digits(n / 10) + [((n % 10) + '0' as int) as char]
  }

  /** `sprintf("%d")`. */
  function Decimal(n: int): (s: string)
    ensures |s| > 0
  {
    if n < 0 then "-" + Digits(-n) else Digits(n)
  }

  /** The value of a digit string. */
  function DigitsValue(s: string): int
    requires forall k :: 0 <= k < |s| ==> '0' <= s[k] <= '9'
  {
    if s == [] then 0 else DigitsValue(s[..|s| - 1]) * 10 + (s[|s| - 1] as int - '0' as int)
  }

  /** Printing a number and reading it back gives the number. */
  lemma {:induction false} DigitsRoundTrip(n: nat)
    ensures DigitsValue(Digits(n)) == n
    decreases n
  {
    if n >= 10 {
      DigitsRoundTrip(n / 10);
      var s := Digits(n);
      assert s[..|s| - 1] == Digits(n / 10);
    }
  }

  lemma DecimalSign(n: int)
    ensures Decimal(n)[0] == '-' <==> n < 0
  {
    if n < 0 {
      assert Decimal(n)[0] == '-';
    } else {
      assert '0' <= Digits(n)[0];
    }
  }

  /** Distinct indices name distinct nodes. */
  lemma DecimalInjective(a: int, b: int)
    requires Decimal(a) == Decimal(b)
    ensures a == b
  {
    DecimalSign(a);
    DecimalSign(b);
    if a < 0 && b < 0 {
      assert Digits(-a) == Decimal(a)[1..];
      DigitsRoundTrip(-a);
      DigitsRoundTrip(-b);
    } else if a >= 0 && b >= 0 {
      DigitsRoundTrip(a);
      DigitsRoundTrip(b);
    }
  }
}

/** The small lookups of lcd_extern.c: i2c bus names and codes, the
    NUL-separated gpio-name list, and the path and index check of a
    `/lcd_extern/extern_<n>` child node. */
module LcdExternLookup {
  import opened LcdExternTypes
  import opened DeviceTree

  // ---------------------------------------------------------------------------
  // i2c bus from a device-tree string (`aml_lcd_extern_get_i2c_bus_str`)
  // ---------------------------------------------------------------------------

  /** `strncmp(str, lit, |lit|) == 0` on the C string `s`. */
  predicate Starts(s: seq<byte>, lit: string)
  {
    |lit| <= |s| && forall k :: 0 <= k < |lit| ==> s[k] == (lit[k] as int) % 0x100
  }

  /** The i2c master named by a bus string: one of the five masters, never
      an invalid value. */
  function GetI2cBusStr(s: seq<byte>): (bus: byte)
    ensures I2C_MASTER_A <= bus <= I2C_MASTER_AO
  {
    if Starts(s, "i2c_bus_ao") then I2C_MASTER_AO
    else if Starts(s, "i2c_bus_a") then I2C_MASTER_A
    else if Starts(s, "i2c_bus_b") then I2C_MASTER_B
    else if Starts(s, "i2c_bus_c") then I2C_MASTER_C
    else if Starts(s, "i2c_bus_d") then I2C_MASTER_D
    else I2C_MASTER_A
  }

  /** A string with the prefix `i2c_bus_ao` also has the prefix `i2c_bus_a`,
      so the order of the tests decides: it selects AO, not A. */
  lemma AoTestedBeforeA(s: seq<byte>)
    requires Starts(s, "i2c_bus_ao")
    ensures Starts(s, "i2c_bus_a") && GetI2cBusStr(s) == I2C_MASTER_AO
  {
    forall k | 0 <= k < 9 ensures s[k] == ("i2c_bus_a"[k] as int) % 0x100 {
      assert "i2c_bus_a"[k] == "i2c_bus_ao"[k];
    }
  }

  /** A string with a literal prefix has every shorter prefix of it. */
  lemma StartsPrefix(s: seq<byte>, lit: string, n: nat)
    requires n <= |lit|
    ensures Starts(s, lit) ==> Starts(s, lit[..n])
  {
    if Starts(s, lit) {
      forall k | 0 <= k < n ensures s[k] == (lit[..n][k] as int) % 0x100 {
        assert lit[..n][k] == lit[k];
      }
    }
  }

  /** A string that does not start `i2c_bus_` selects bus A. */
  lemma UnknownBusIsA(s: seq<byte>)
    requires !Starts(s, "i2c_bus_")
    ensures GetI2cBusStr(s) == I2C_MASTER_A
  {
    StartsPrefix(s, "i2c_bus_ao", 8);
    StartsPrefix(s, "i2c_bus_a", 8);
    StartsPrefix(s, "i2c_bus_b", 8);
    StartsPrefix(s, "i2c_bus_c", 8);
    StartsPrefix(s, "i2c_bus_d", 8);
  }

  // ---------------------------------------------------------------------------
  // i2c bus from a unifykey code (`aml_lcd_extern_get_i2c_bus_unifykey`)
  // ---------------------------------------------------------------------------

  /** `aml_lcd_extern_i2c_bus_table`: unifykey bus code, i2c master. */
  const BUS_TABLE: seq<(byte, byte)> := [(I2C_BUS_AO, I2C_MASTER_AO), (I2C_BUS_A, I2C_MASTER_A),
                                         (I2C_BUS_B, I2C_MASTER_B), (I2C_BUS_C, I2C_MASTER_C),
                                         (I2C_BUS_D, I2C_MASTER_D)]

  /** The master of the first entry of `table` from entry `i` on whose code
      is `val`. */
  function LookupFrom(table: seq<(byte, byte)>, val: byte, i: nat): (bus: byte)
    ensures (exists k :: i <= k < |table| && table[k].0 == val) ==>
              exists k :: i <= k < |table| && table[k].0 == val && bus == table[k].1 &&
                          forall m :: i <= m < k ==> table[m].0 != val
    ensures (forall k :: i <= k < |table| ==> table[k].0 != val) ==> bus == I2C_BUS_INVALID
    decreases |table| - i
  {
    if i >= |table| then I2C_BUS_INVALID
    else if table[i].0 == val then table[i].1
    else LookupFrom(table, val, i + 1)
  }

  /** The bus table lookup: the master of the entry whose code is `val`, or
      `LCD_EXTERN_I2C_BUS_INVALID` when no entry has that code. */
  method I2cBusUnifykey(val: byte) returns (bus: byte)
    ensures bus == LookupFrom(BUS_TABLE, val, 0)
  {
    bus := I2C_BUS_INVALID;
    var i := 0;
    while i < |BUS_TABLE|
      invariant 0 <= i <= |BUS_TABLE|
      invariant LookupFrom(BUS_TABLE, val, 0) == LookupFrom(BUS_TABLE, val, i)
    {
      if BUS_TABLE[i].0 == val {
        bus := BUS_TABLE[i].1;
        break;
      }
      i := i + 1;
    }
  }

  /** Every bus code the table knows maps to the master of the same letter;
      every other code is invalid. */
  lemma BusCodes(val: byte)
    ensures val == I2C_BUS_A ==> LookupFrom(BUS_TABLE, val, 0) == I2C_MASTER_A
    ensures val == I2C_BUS_B ==> LookupFrom(BUS_TABLE, val, 0) == I2C_MASTER_B
    ensures val == I2C_BUS_C ==> LookupFrom(BUS_TABLE, val, 0) == I2C_MASTER_C
    ensures val == I2C_BUS_D ==> LookupFrom(BUS_TABLE, val, 0) == I2C_MASTER_D
    ensures val == I2C_BUS_AO ==> LookupFrom(BUS_TABLE, val, 0) == I2C_MASTER_AO
    ensures LookupFrom(BUS_TABLE, val, 0) == I2C_BUS_INVALID <==> val > I2C_BUS_AO
  {
    var t := BUS_TABLE;
    assert t[0].0 == 4 && t[1].0 == 0 && t[2].0 == 1 && t[3].0 == 2 && t[4].0 == 3;
    if val > I2C_BUS_AO {
      assert forall k :: 0 <= k < |t| ==> t[k].0 != val;
    } else {
      assert LookupFrom(t, val, 0) != I2C_BUS_INVALID;
    }
  }

  /** The device-tree name of a bus code. */
  function BusName(val: byte): string
    requires val <= I2C_BUS_AO
  {
    if val == I2C_BUS_AO then "i2c_bus_ao"
    else if val == I2C_BUS_A then "i2c_bus_a"
    else if val == I2C_BUS_B then "i2c_bus_b"
    else if val == I2C_BUS_C then "i2c_bus_c"
    else "i2c_bus_d"
  }

  /** The two configuration sources agree: a bus given by code in a unifykey
      and by name in a device tree selects the same i2c master. */
  lemma BusSourcesAgree(val: byte)
    requires val <= I2C_BUS_AO
    ensures GetI2cBusStr(Ascii(BusName(val))) == LookupFrom(BUS_TABLE, val, 0)
  {
    BusCodes(val);
    var s := Ascii(BusName(val));
    if val != I2C_BUS_AO {
      assert !Starts(s, "i2c_bus_ao") by { assert |s| == 9; }
      if val != I2C_BUS_A {
        assert s[8] != ('a' as int) % 0x100;
        if val != I2C_BUS_B {
          assert s[8] != ('b' as int) % 0x100;
          if val != I2C_BUS_C {
            assert s[8] != ('c' as int) % 0x100;
          }
        }
      }
    }
  }

  // ---------------------------------------------------------------------------
  // gpio names (`aml_lcd_extern_get_init_dts`)
  // ---------------------------------------------------------------------------

  /** The strings of a NUL-separated list from offset `off` on, at most
      `count` of them, ending at the first empty string. */
  function NameList(prop: seq<byte>, off: nat, count: nat): (names: seq<seq<byte>>)
    ensures |names| <= count
    decreases count
  {
    if count == 0 then []
    else
      var s := CString(prop, off);
      if s == [] then [] else [s] + NameList(prop, off + |s| + 1, count - 1)
  }

  /** Every name the list reader returns is a non-empty C string. */
  lemma {:induction false} NameListGood(prop: seq<byte>, off: nat, count: nat)
    ensures GoodNames(NameList(prop, off, count))
    decreases count
  {
    if count > 0 {
      var s := CString(prop, off);
      if s != [] {
        NameListGood(prop, off + |s| + 1, count - 1);
        var names := NameList(prop, off, count);
        assert names == [s] + NameList(prop, off + |s| + 1, count - 1);
      }
    }
  }

  /** One step of the list reader: the non-empty string at `off`, then the
      list after it. */
  lemma NameListNext(prop: seq<byte>, off: nat, count: nat, s: seq<byte>)
    requires count > 0 && s == CString(prop, off) && s != []
    ensures NameList(prop, off, count) == [s] + NameList(prop, off + |s| + 1, count - 1)
  {
  }

  /** The list reader stops at an empty string. */
  lemma NameListStop(prop: seq<byte>, off: nat, count: nat)
    requires CString(prop, off) == []
    ensures NameList(prop, off, count) == []
  {
  }

  /** One step of the list walk: with `copied` read so far and the rest
      starting at `off`, the string at `off` is the next name. */
  lemma NameListWalk(prop: seq<byte>, off: nat, count: nat, copied: seq<seq<byte>>, names: seq<seq<byte>>)
    requires count > 0 && CString(prop, off) != []
    requires names == copied + NameList(prop, off, count)
    ensures names == (copied + [CString(prop, off)]) + NameList(prop, off + |CString(prop, off)| + 1, count - 1)
  {
    var s := CString(prop, off);
    NameListNext(prop, off, count, s);
    ConcatAssoc(copied, [s], NameList(prop, off + |s| + 1, count - 1));
  }

  /** The loop of `aml_lcd_extern_get_init_dts` over a name list `v`: slot
      `i` gets the string after the one slot `i - 1` got, until an empty
      string or slot `count`. `i` is the number of names copied. */
  method CopyNames(a: array<seq<byte>>, v: seq<byte>, count: nat) returns (i: nat)
    requires count <= a.Length
    modifies a
    ensures var names := NameList(v, 0, count);
            i == |names| && a[..] == names + old(a[..])[i..]
  {
    ghost var names := NameList(v, 0, count);
    ghost var slots := a[..];
    ghost var copied: seq<seq<byte>> := [];
    ghost var next: nat := 0;
    i := 0;
    var off: nat := 0;
    while i < count
      invariant Walking(a[..], v, count, i, off, copied, next, names, slots)
    {
      var stop;
      ghost var copied', next';
      off, stop, copied', next' := CopyStep(a, v, count, i, off, copied, next, names, slots);
      if stop {
        break;
      }
      i, copied, next := i + 1, copied', next';
    }
    assert names == copied;
  }

  /** The state of the gpio-name walk before slot `i`: the first `i` slots
      hold the names read so far, the others are untouched, and the names
      still to come start at `next`, just past the string at `off`. */
  ghost predicate Walking(cur: seq<seq<byte>>, v: seq<byte>, count: nat, i: nat, off: nat,
                          copied: seq<seq<byte>>, next: nat, names: seq<seq<byte>>, slots: seq<seq<byte>>)
  {
    i <= count <= |slots| && |copied| == i &&
    (if i == 0 then off == 0 && next == 0 else next == off + |CString(v, off)| + 1) &&
    cur == copied + slots[i..] &&
    names == copied + NameList(v, next, count - i)
  }

  method CopyStep(a: array<seq<byte>>, v: seq<byte>, count: nat, i: nat, off: nat,
                  ghost copied: seq<seq<byte>>, ghost next: nat, ghost names: seq<seq<byte>>, ghost slots: seq<seq<byte>>)
    returns (off': nat, stop: bool, ghost copied': seq<seq<byte>>, ghost next': nat)
    requires i < count && Walking(a[..], v, count, i, off, copied, next, names, slots)
    modifies a
    ensures stop ==> names == copied && a[..] == old(a[..])
    ensures !stop ==> Walking(a[..], v, count, i + 1, off', copied', next', names, slots)
  {
    off' := off;
    if i > 0 {
      off' := off + |CString(v, off)| + 1;
    }
    var s := CString(v, off');
    if |s| == 0 {
      NameListStop(v, off', count - i);
      stop, copied', next' := true, copied, next;
      return;
    }
    NameListWalk(v, off', count - i, copied, names);
    SlotFill(copied, slots, s);
    a[i] := s;
    stop, copied', next' := false, copied + [s], off' + |s| + 1;
    assert a[..] == old(a[..])[i := s];
  }

  lemma ConcatAssoc<T>(a: seq<T>, b: seq<T>, c: seq<T>)
    ensures a + (b + c) == (a + b) + c
  {
  }

  /** Filling the first unfilled slot. */
  lemma SlotFill<T>(copied: seq<T>, slots: seq<T>, x: T)
    requires |copied| < |slots|
    ensures (copied + slots[|copied|..])[|copied| := x] == (copied + [x]) + slots[|copied| + 1..]
  {
  }

  /** The gpio-name slots after the list `names` was copied in: slot `k`
      holds name `k`, and when the list is short the next slot is "invalid". */
  function GpioSlots(slots: seq<seq<byte>>, names: seq<seq<byte>>): (r: seq<seq<byte>>)
    requires |names| <= |slots|
    ensures |r| == |slots|
    ensures forall k :: 0 <= k < |names| ==> r[k] == names[k]
    ensures |names| < |slots| ==> r[|names|] == Ascii("invalid")
    ensures forall k :: |names| < k < |slots| ==> r[k] == slots[k]
  {
    var r := names + slots[|names|..];
    if |names| < |slots| then r[|names| := Ascii("invalid")] else r
  }

  /** A list of names as a device tree stores it: each followed by a NUL. */
  function Join(names: seq<seq<byte>>): seq<byte>
  {
    if names == [] then [] else names[0] + [0] + Join(names[1..])
  }

  predicate GoodNames(names: seq<seq<byte>>)
  {
    forall k :: 0 <= k < |names| ==> names[k] != [] && 0 !in names[k]
  }

  /** The string at an offset depends only on the bytes from there on. */
  lemma {:induction false} CStringShift(pre: seq<byte>, rest: seq<byte>, off: nat)
    ensures CString(pre + rest, |pre| + off) == CString(rest, off)
    decreases |rest| - off
  {
    var s := pre + rest;
    if off < |rest| && rest[off] != 0 {
      assert s[|pre| + off] == rest[off];
      CStringShift(pre, rest, off + 1);
    }
  }

  /** A string stored at `from` and followed by a NUL reads back. */
  lemma {:induction false} CStringAt(s: seq<byte>, from: nat, name: seq<byte>)
    requires from + |name| < |s| && s[from + |name|] == 0
    requires forall k :: 0 <= k < |name| ==> s[from + k] == name[k] && name[k] != 0
    ensures CString(s, from) == name
    decreases |name|
  {
    if name != [] {
      assert s[from + 0] == name[0];
      CStringAt(s, from + 1, name[1..]);
    }
  }

  lemma CStringOfName(name: seq<byte>, rest: seq<byte>)
    requires 0 !in name
    ensures CString(name + [0] + rest, 0) == name
  {
    var s := name + [0] + rest;
    forall k | 0 <= k < |name| ensures s[0 + k] == name[k] && name[k] != 0 {
      assert name[k] in name;
    }
    CStringAt(s, 0, name);
  }

  lemma {:induction false} NameListShift(pre: seq<byte>, rest: seq<byte>, off: nat, count: nat)
    ensures NameList(pre + rest, |pre| + off, count) == NameList(rest, off, count)
    decreases count
  {
    if count > 0 {
      CStringShift(pre, rest, off);
      var s := CString(rest, off);
      if s != [] {
        NameListShift(pre, rest, off + |s| + 1, count - 1);
        assert |pre| + off + |s| + 1 == |pre| + (off + |s| + 1);
      }
    }
  }

  /** The first string of a list is read, then the rest: one step of the
      list reader. */
  lemma NameListCons(head: seq<byte>, rest: seq<byte>, count: nat)
    requires count > 0 && head != [] && 0 !in head
    ensures NameList(head + [0] + rest, 0, count) == [head] + NameList(rest, 0, count - 1)
  {
    CStringOfName(head, rest);
    NameListShift(head + [0], rest, 0, count - 1);
    assert head + [0] + rest == (head + [0]) + rest;
  }

  /** Round trip: reading back a stored list of non-empty names gives the
      names, up to `count` of them. */
  lemma {:induction false} NameListOfJoin(names: seq<seq<byte>>, count: nat)
    requires GoodNames(names)
    ensures NameList(Join(names), 0, count) == if |names| <= count then names else names[..count]
    decreases count
  {
    if count > 0 {
      if names == [] {
        assert CString([], 0) == [];
      } else {
        var tail := names[1..];
        assert GoodNames(tail) by {
          forall k | 0 <= k < |tail| ensures tail[k] != [] && 0 !in tail[k] {
            assert tail[k] == names[k + 1];
          }
        }
        assert Join(names) == names[0] + [0] + Join(tail);
        NameListCons(names[0], Join(tail), count);
        NameListOfJoin(tail, count - 1);
        if |names| > count {
          assert names[..count] == [names[0]] + tail[..count - 1];
        } else {
          assert names == [names[0]] + tail;
        }
      }
    }
  }

  // ---------------------------------------------------------------------------
  // child nodes (`aml_lcd_extern_get_dts_child`)
  // ---------------------------------------------------------------------------

  /** The path `sprintf` builds for child `index`. */
  function ChildPath(index: int): string
  {
    "/lcd_extern/extern_" + Decimal(index)
  }

  /** The child node for `index`: it must exist and carry an `index` property
      whose first cell equals `index` (compared as unsigned 32-bit values). */
  function GetDtsChild(tree: Tree, index: int): (r: Option<string>)
    ensures r.Some? <==>
              ChildPath(index) in tree && "index" in tree[ChildPath(index)] &&
              Cell(tree[ChildPath(index)]["index"]) == index % 0x1_0000_0000
    ensures r.Some? ==> r.value == ChildPath(index)
  {
    var path := ChildPath(index);
    match GetProp(tree, path, "index")
    case None => None
    case Some(v) => if Cell(v) != index % 0x1_0000_0000 then None else Some(path)
  }

  /** Distinct indices name distinct child nodes, so one tree node answers
      for one index only. */
  lemma ChildPathInjective(a: int, b: int)
    requires ChildPath(a) == ChildPath(b)
    ensures a == b
  {
    var pre := "/lcd_extern/extern_";
    assert ChildPath(a)[|pre|..] == Decimal(a);
    assert ChildPath(b)[|pre|..] == Decimal(b);
    DecimalInjective(a, b);
  }
}

/** The configuration record of one external panel (`struct lcd_extern_config_s`)
    and the routines of lcd_extern.c that fill it: the four init-table loaders,
    the `cmd_size` dispatch between them, and the unifykey and device-tree
    configuration builders. */
module LcdExternConfig {
  import opened LcdExternTypes
  import opened InitTable
  import opened InitTableLemmas
  import opened DeviceTree
  import opened LcdExternLookup
  import opened LcdExternParse

  /** Declared capacity of the on (`true`) or off (`false`) table. */
  function MaxLen(on: bool): nat
  {
    if on then INIT_ON_MAX else INIT_OFF_MAX
  }

  /** An inner `for` loop of a loader: `n` bytes of `src` from `from` copied
      into `a` at `at`. */
  method CopyRun(a: array<byte>, at: nat, src: seq<byte>, from: nat, n: nat)
    requires at + n <= a.Length && from + n <= |src|
    modifies a
    ensures a[..] == CopyIn(old(a[..]), at, src, from, n)
  {
    ghost var t := a[..];
    var j := 0;
    while j < n
      invariant 0 <= j <= n
      invariant CopyIn(t, at, src, from, n) == CopyIn(a[..], at + j, src, from + j, n - j)
    {
      a[at + j] := src[from + j];
      j := j + 1;
    }
  }

  /** The inner loop that clears the data bytes of a record cut short. */
  method ZeroRun(a: array<byte>, at: nat, n: nat)
    requires at + n <= a.Length
    modifies a
    ensures a[..] == Overwrite(old(a[..]), at, Zeros(n))
  {
    ghost var t := a[..];
    var j := 0;
    while j < n
      invariant 0 <= j <= n
      invariant Overwrite(t, at, Zeros(n)) == Overwrite(a[..], at + j, Zeros(n - j))
    {
      assert Zeros(n - j) == [0] + Zeros(n - j - 1);
      a[at + j] := 0;
      j := j + 1;
    }
  }

  /** One pass of the body of the unifykey dynamic loader's loop at table
      offset `i`, reading `src` from `q` with running length `l`: the type
      byte, then the size byte, then the data, each after its length check.
      `done` says the loop ends here with `ret`; otherwise it goes on `n`
      bytes further in the table and in `src`. */
  method DynamicPass(table: array<byte>, src: seq<byte>, i: nat, q: nat, l: int, keyLen: int,
                     ghost maxLen: nat)
    returns (done: bool, ret: int, n: nat)
    requires i < maxLen && maxLen + SPILL <= table.Length
    requires q + (keyLen - l) <= |src|
    modifies table
    ensures var d := DynamicDecode(old(table[..]), src, i, q, l, keyLen, maxLen);
            if done then table[..] == d.table && ret == d.ret
            else 2 <= n && l + n <= keyLen &&
                 DynamicDecode(table[..], src, i + n, q + n, l + n, keyLen, maxLen) == d
  {
    ghost var t: seq<byte> := table[..];
    // step 1: type
    if LenCheckFails(keyLen, l + 1) {
      table[i] := INIT_END;
      assert table[..] == t[i := INIT_END];
      return true, -1, 0;
    }
    table[i] := src[q];
    if table[i] == INIT_END {
      assert table[..] == t[i := INIT_END];
      return true, 0, 0;
    }
    // step 2: size
    if LenCheckFails(keyLen, l + 2) {
      table[i] := INIT_END;
      assert table[..] == t[i := INIT_END];
      return true, -1, 0;
    }
    table[i + 1] := src[q + 1];
    var size: byte := table[i + 1];
    ghost var t1: seq<byte> := table[..];
    assert t1 == t[i := src[q]][i + 1 := size];
    if size == 0 {
      DynamicUnfoldNext(t, src, i, q, l, keyLen, maxLen, table[..], 2);
      return false, 0, 2;
    }
    // step 3: data
    if LenCheckFails(keyLen, l + 2 + size) {
      table[i] := INIT_END;
      assert table[..] == t1[i := INIT_END];
      ZeroRun(table, i + 2, size);
      return true, -1, 0;
    }
    CopyRun(table, i + 2, src, q + 2, size);
    DynamicUnfoldNext(t, src, i, q, l, keyLen, maxLen, table[..], 2 + size);
    return false, 0, 2 + size;
  }

  /** One pass of the body of the unifykey fixed loader's loop: one whole
      record is length-checked, copied, and its first byte tested for END. */
  method FixedPass(table: array<byte>, src: seq<byte>, i: nat, q: nat, l: int, keyLen: int,
                   cmdSize: byte)
    returns (done: bool, ret: int, n: nat)
    requires 1 < cmdSize
    requires i + SPILL <= table.Length
    requires q + (keyLen - l) <= |src|
    modifies table
    ensures match FixedStepAt(old(table[..]), src, i, q, l, keyLen, cmdSize)
            case Stop(d) => done && table[..] == d.table && ret == d.ret
            case Next(t1, n1) => !done && table[..] == t1 && n == n1
  {
    ghost var t: seq<byte> := table[..];
    if LenCheckFails(keyLen, l + cmdSize) {
      table[i] := INIT_END;
      assert table[..] == t[i := INIT_END];
      return true, -1, 0;
    }
    CopyRun(table, i, src, q, cmdSize);
    CopyInAt(t, i, src, q, cmdSize);
    if table[i] == INIT_END {
      return true, 0, 0;
    }
    return false, 0, cmdSize;
  }

  /** An inner `for` loop of a device-tree loader: the low bytes of the `n`
      words of `prop` from word `from` copied into `a` at `at`. */
  method CopyWordsRun(a: array<byte>, at: nat, prop: seq<byte>, from: nat, n: nat)
    requires at + n <= a.Length && from + n <= |prop| / 4
    modifies a
    ensures a[..] == CopyIn(old(a[..]), at, DtsBytes(prop), from, n)
  {
    ghost var t := a[..];
    ghost var src := DtsBytes(prop);
    var j := 0;
    while j < n
      invariant 0 <= j <= n
      invariant CopyIn(t, at, src, from, n) == CopyIn(a[..], at + j, src, from + j, n - j)
    {
      a[at + j] := WordByte(prop, from + j);
      j := j + 1;
    }
  }

  /** One pass of the body of the device-tree dynamic loader's loop. The
      loader checks no length; the precondition says the property holds the
      whole table, and then the pass is the decoder's step with the table
      offset as read position and the property's word count as length. */
  method DynamicDtsPass(table: array<byte>, prop: seq<byte>, i: nat, ghost maxLen: nat)
    returns (done: bool, n: nat)
    requires i < maxLen && maxLen + SPILL <= table.Length
    requires DynamicInBounds(DtsBytes(prop), |prop| / 4, i, i, maxLen)
    modifies table
    ensures var src := DtsBytes(prop);
            match DynamicStepAt(old(table[..]), src, i, i, i, |src|)
            case Stop(d) => done && table[..] == d.table && d.ret == 0
            case Next(t1, n1) => !done && table[..] == t1 && n == n1 &&
                                 DynamicInBounds(src, |src|, i + n, i + n, maxLen)
  {
    ghost var t: seq<byte> := table[..];
    ghost var src := DtsBytes(prop);
    // step 1: type
    table[i] := WordByte(prop, i);
    var kind: byte := table[i];
    if kind == INIT_END {
      assert table[..] == t[i := INIT_END];
      return true, 0;
    }
    // step 2: size
    table[i + 1] := WordByte(prop, i + 1);
    var size: byte := table[i + 1];
    assert table[..] == t[i := src[i]][i + 1 := size];
    if size == 0 {
      return false, 2;
    }
    // step 3: data
    CopyWordsRun(table, i + 2, prop, i + 2, size);
    return false, 2 + size;
  }

  /** One pass of the body of the device-tree fixed loader's loop (with the
      stop test on the table being loaded; see FixedDtsAsWritten). */
  method FixedDtsPass(table: array<byte>, prop: seq<byte>, i: nat, cmdSize: byte, ghost maxLen: nat)
    returns (done: bool)
    requires 1 < cmdSize
    requires i < maxLen && maxLen + SPILL <= table.Length
    requires FixedInBounds(DtsBytes(prop), |prop| / 4, i, i, cmdSize, maxLen)
    modifies table
    ensures var src := DtsBytes(prop);
            match FixedStepAt(old(table[..]), src, i, i, i, |src|, cmdSize)
            case Stop(d) => done && table[..] == d.table && d.ret == 0
            case Next(t1, n1) => !done && table[..] == t1 && n1 == cmdSize &&
                                 FixedInBounds(src, |src|, i + cmdSize, i + cmdSize, cmdSize, maxLen)
  {
    ghost var t: seq<byte> := table[..];
    CopyWordsRun(table, i, prop, i, cmdSize);
    CopyInAt(t, i, DtsBytes(prop), i, cmdSize);
    done := table[i] == INIT_END;
  }

  /** The result of `aml_lcd_extern_get_config_unifykey`: 0 exactly when the
      buffer was allocated, the blob was read, it holds the header, basic and
      type blocks, and its index is the requested one. */
  function UkeyRet(index: int, allocOk: bool, key: Option<seq<byte>>): int
    requires key.Some? ==> |key.value| <= UKEY_LCD_EXT_SIZE
  {
    if allocOk && key.Some? && !LenCheckFails(|key.value|, UKEY_TABLE_OFFSET) &&
       index == UkeyPara(key.value)[UKEY_INDEX_AT] as int
    then 0 else -1
  }

  /** The record `c` and tables `on`, `off` that
      `aml_lcd_extern_get_config_unifykey` leaves, from `c0`, `on0`, `off0`:
      only the flag is cleared when the blob is missing or too short; the
      basic block alone is read when the index is foreign or the type has no
      type block; otherwise the i2c or spi block and the dispatched tables. */
  ghost predicate UkeyBuilt(index: int, allocOk: bool, key: Option<seq<byte>>,
                            c0: Params, on0: seq<byte>, off0: seq<byte>,
                            c: Params, on: seq<byte>, off: seq<byte>)
    requires key.Some? ==> |key.value| <= UKEY_LCD_EXT_SIZE
    requires Sized(on0, off0)
  {
    (!allocOk || key.None? || LenCheckFails(|key.value|, UKEY_TABLE_OFFSET) ==>
       c == c0.(tableInitLoaded := false) && on == on0 && off == off0) &&
    (allocOk && key.Some? && !LenCheckFails(|key.value|, UKEY_TABLE_OFFSET) ==>
       var para := UkeyPara(key.value);
       var basic := UkeyBasic(c0, para);
       var ok := UkeyRet(index, allocOk, key) == 0;
       if ok && basic.extType == EXTERN_I2C then
         var r := UkeyTables(on0, off0, para, |key.value|, para[UKEY_VAL_AT + 3]);
         on == r.on && off == r.off && c == UkeyI2c(basic, para, r.loaded)
       else if ok && basic.extType == EXTERN_SPI then
         var r := UkeyTables(on0, off0, para, |key.value|, para[UKEY_VAL_AT + 8]);
         on == r.on && off == r.off && c == UkeySpi(basic, para, r.loaded)
       else
         c == basic && on == on0 && off == off0)
  }

  /** The result of `aml_lcd_extern_get_config_dts`: -1 for a missing or
      mismatched child, a missing `type`, or a missing required i2c or spi
      property; 0 otherwise. */
  function DtsRet(tree: Tree, index: int, c0: Params): int
  {
    match GetDtsChild(tree, index)
    case None => -1
    case Some(path) =>
      var node := tree[path];
      var basic := DtsBasic(c0, node);
      if "type" !in node then -1
      else if basic.extType == EXTERN_I2C && !DtsI2c(basic, node).1 then -1
      else if basic.extType == EXTERN_SPI && !DtsSpi(basic, node).1 then -1
      else 0
  }

  /** The record and tables `aml_lcd_extern_get_config_dts` leaves: only the
      flag is cleared without a child; the basic fields without `type`; the
      i2c or spi fields, and the dispatched tables when every required
      property exists. */
  ghost predicate DtsBuilt(tree: Tree, index: int, c0: Params, on0: seq<byte>, off0: seq<byte>,
                           c: Params, on: seq<byte>, off: seq<byte>)
    requires Sized(on0, off0)
  {
    (GetDtsChild(tree, index).None? ==>
       c == c0.(tableInitLoaded := false) && on == on0 && off == off0) &&
    (GetDtsChild(tree, index).Some? ==>
       var node := tree[ChildPath(index)];
       var basic := DtsBasic(c0, node);
       var i2c, spi := DtsI2c(basic, node), DtsSpi(basic, node);
       var onProp, offProp := NodeProp(node, "init_on"), NodeProp(node, "init_off");
       if "type" !in node then
         c == basic && on == on0 && off == off0
       else if basic.extType == EXTERN_I2C && i2c.1 then
         var r := DtsTables(on0, off0, onProp, offProp, i2c.0.cmdSize);
         c == i2c.0.(tableInitLoaded := r.loaded) && on == r.on && off == r.off
       else if basic.extType == EXTERN_SPI && spi.1 then
         var r := DtsTables(on0, off0, onProp, offProp, spi.0.cmdSize);
         c == spi.0.(tableInitLoaded := r.loaded) && on == r.on && off == r.off
       else
         on == on0 && off == off0 &&
         c == if basic.extType == EXTERN_I2C then i2c.0
              else if basic.extType == EXTERN_SPI then spi.0
              else basic)
  }

  class ExternConfig {
    /** The scalar fields of the record. */
    var conf: Params
    /** The power-on and power-off command tables, each with room for the
        bytes a loader may write past the declared capacity. */
    const tableInitOn: array<byte>
    const tableInitOff: array<byte>
    /** The gpio names, one C string per slot. */
    const gpioName: array<seq<byte>>

    predicate Valid()
    {
      tableInitOn.Length == INIT_ON_MAX + SPILL && tableInitOff.Length == INIT_OFF_MAX + SPILL &&
      gpioName.Length == GPIO_NUM_MAX && tableInitOn != tableInitOff
    }

    /** The table a loader called with `flag` writes. */
    function Table(on: bool): (a: array<byte>)
      requires Valid()
      ensures a.Length == MaxLen(on) + SPILL
    {
      if on then tableInitOn else tableInitOff
    }

    constructor ()
      ensures Valid() && fresh(tableInitOn) && fresh(tableInitOff) && fresh(gpioName)
      ensures !conf.tableInitLoaded
    {
      tableInitOn := new byte[INIT_ON_MAX + SPILL](_ => INIT_END);
      tableInitOff := new byte[INIT_OFF_MAX + SPILL](_ => INIT_END);
      gpioName := new seq<byte>[GPIO_NUM_MAX](_ => []);
      conf := Params(0, [], 0, 0, 0, 0, 0, 0, 0, 0, 0, 0, 0, false, 0);
    }

    /** `aml_lcd_extern_init_table_dynamic_size_load_unifykey`: decodes dynamic
        records from `src` at offset `p` into the on or off table, checking the
        running length `len` against `keyLen` before every read. */
    method DynamicLoadUnifykey(src: seq<byte>, p: nat, keyLen: int, len: int, on: bool)
      returns (ret: int)
      requires Valid()
      requires p + (keyLen - len) <= |src|
      modifies Table(on)
      ensures var d := DynamicDecode(old(Table(on)[..]), src, 0, p, len, keyLen, MaxLen(on));
              ret == d.ret && Table(on)[..] == d.table
    {
      var table := Table(on);
      var maxLen: int := MaxLen(on);
      ghost var goal := DynamicDecode(table[..], src, 0, p, len, keyLen, maxLen);
      var i := 0;
      var q := p;
      var l := len;
      while i < maxLen
        invariant 0 <= i && q == p + i && l == len + i
        invariant DynamicDecode(table[..], src, i, q, l, keyLen, maxLen) == goal
        decreases maxLen - i
      {
        var done, r, n := DynamicPass(table, src, i, q, l, keyLen, maxLen);
        if done {
          return r;
        }
        i, q, l := i + n, q + n, l + n;
      }
      ret := 0;
    }

    /** `aml_lcd_extern_init_table_fixed_size_load_unifykey`: decodes records of
        `conf.cmdSize` bytes from `src` at offset `p`, checking each whole record
        against `keyLen` before copying it. */
    method FixedLoadUnifykey(src: seq<byte>, p: nat, keyLen: int, len: int, on: bool)
      returns (ret: int)
      requires Valid() && 1 < conf.cmdSize
      requires p + (keyLen - len) <= |src|
      modifies Table(on)
      ensures var d := FixedDecode(old(Table(on)[..]), src, 0, p, len, keyLen, conf.cmdSize, MaxLen(on));
              ret == d.ret && Table(on)[..] == d.table
    {
      var size := conf.cmdSize;
      var table := Table(on);
      var maxLen: int := MaxLen(on);
      ghost var goal := FixedDecode(table[..], src, 0, p, len, keyLen, size, maxLen);
      var i := 0;
      var q := p;
      var l := len;
      while i < maxLen
        invariant q == p + i && l == len + i
        invariant FixedDecode(table[..], src, i, q, l, keyLen, size, maxLen) == goal
        decreases maxLen - i
      {
        ghost var t := table[..];
        var done, r, n := FixedPass(table, src, i, q, l, keyLen, size);
        if done {
          return r;
        }
        FixedUnfoldNext(t, src, i, q, l, keyLen, size, maxLen, table[..]);
        i, q, l := i + n, q + n, l + n;
      }
      ret := 0;
    }

    /** `aml_lcd_extern_init_table_dynamic_size_load_dts`: decodes dynamic
        records from the `init_on` or `init_off` property, one byte per word.
        A missing property ends the table at once and fails. */
    method DynamicLoadDts(prop: Option<seq<byte>>, on: bool) returns (ret: int)
      requires Valid()
      requires prop.Some? ==> DynamicInBounds(DtsBytes(prop.value), |prop.value| / 4, 0, 0, MaxLen(on))
      modifies Table(on)
      ensures prop.None? ==> ret == -1 && Table(on)[..] == old(Table(on)[..])[0 := INIT_END]
      ensures prop.Some? ==>
                var src := DtsBytes(prop.value);
                var d := DynamicDecode(old(Table(on)[..]), src, 0, 0, 0, |src|, MaxLen(on));
                ret == 0 && d.ret == 0 && Table(on)[..] == d.table
    {
      var table := Table(on);
      var maxLen: int := MaxLen(on);
      if prop.None? {
        table[0] := INIT_END;
        return -1;
      }
      var v := prop.value;
      ghost var src := DtsBytes(v);
      ghost var goal := DynamicDecode(table[..], src, 0, 0, 0, |src|, maxLen);
      DynamicSucceedsIff(table[..], src, 0, 0, 0, |src|, maxLen);
      var i := 0;
      while i < maxLen
        invariant DynamicInBounds(src, |src|, i, i, maxLen)
        invariant DynamicDecode(table[..], src, i, i, i, |src|, maxLen) == goal
        invariant goal.ret == 0
        decreases maxLen - i
      {
        ghost var t := table[..];
        var done, n := DynamicDtsPass(table, v, i, maxLen);
        if done {
          break;
        }
        DynamicUnfoldNext(t, src, i, i, i, |src|, maxLen, table[..], n);
        i := i + n;
      }
      ret := 0;
    }

    /** `aml_lcd_extern_init_table_fixed_size_load_dts`, with the stop test
        reading the table being loaded (see FixedDtsAsWritten for the test as
        the source writes it). */
    method FixedLoadDts(prop: Option<seq<byte>>, on: bool) returns (ret: int)
      requires Valid() && 1 < conf.cmdSize
      requires prop.Some? ==> FixedInBounds(DtsBytes(prop.value), |prop.value| / 4, 0, 0, conf.cmdSize, MaxLen(on))
      modifies Table(on)
      ensures prop.None? ==> ret == -1 && Table(on)[..] == old(Table(on)[..])[0 := INIT_END]
      ensures prop.Some? ==>
                var src := DtsBytes(prop.value);
                var d := FixedDecode(old(Table(on)[..]), src, 0, 0, 0, |src|, conf.cmdSize, MaxLen(on));
                ret == 0 && d.ret == 0 && Table(on)[..] == d.table
    {
      var size := conf.cmdSize;
      var table := Table(on);
      var maxLen: int := MaxLen(on);
      if prop.None? {
        table[0] := INIT_END;
        return -1;
      }
      var v := prop.value;
      ghost var src := DtsBytes(v);
      ghost var goal := FixedDecode(table[..], src, 0, 0, 0, |src|, size, maxLen);
      FixedSucceedsIff(table[..], src, 0, 0, 0, |src|, size, maxLen);
      var i := 0;
      while i < maxLen
        invariant FixedInBounds(src, |src|, i, i, size, maxLen)
        invariant FixedDecode(table[..], src, i, i, i, |src|, size, maxLen) == goal
        invariant goal.ret == 0
        decreases maxLen - i
      {
        ghost var t := table[..];
        var done := FixedDtsPass(table, v, i, size, maxLen);
        if done {
          break;
        }
        FixedUnfoldNext(t, src, i, i, i, |src|, size, maxLen, table[..]);
        i := i + size;
      }
      ret := 0;
    }

    /** The `cmd_size` dispatch of the unifykey builder: the on table, then,
        if it loaded, the off table, from the same blob offset and running
        length; `loaded` says both loaded. */
    method LoadTablesUnifykey(para: seq<byte>, keyLen: int) returns (loaded: bool)
      requires Valid() && keyLen <= |para|
      modifies tableInitOn, tableInitOff
      ensures var r := UkeyTables(old(tableInitOn[..]), old(tableInitOff[..]), para, keyLen, conf.cmdSize);
              tableInitOn[..] == r.on && tableInitOff[..] == r.off &&
              loaded == r.loaded
    {
      if conf.cmdSize <= 1 {
        return false;
      }
      var p := UKEY_TABLE_OFFSET;
      var ret;
      if conf.cmdSize == CMD_SIZE_DYNAMIC {
        ret := DynamicLoadUnifykey(para, p, keyLen, p, true);
        if ret != 0 {
          return false;
        }
        ret := DynamicLoadUnifykey(para, p, keyLen, p, false);
      } else {
        ret := FixedLoadUnifykey(para, p, keyLen, p, true);
        if ret != 0 {
          return false;
        }
        ret := FixedLoadUnifykey(para, p, keyLen, p, false);
      }
      loaded := ret == 0;
    }

    /** The `cmd_size` dispatch of the device-tree builder. */
    method LoadTablesDts(onProp: Option<seq<byte>>, offProp: Option<seq<byte>>) returns (loaded: bool)
      requires Valid()
      requires DtsReadable(onProp, conf.cmdSize, INIT_ON_MAX) && DtsReadable(offProp, conf.cmdSize, INIT_OFF_MAX)
      modifies tableInitOn, tableInitOff
      ensures var r := DtsTables(old(tableInitOn[..]), old(tableInitOff[..]), onProp, offProp, conf.cmdSize);
              tableInitOn[..] == r.on && tableInitOff[..] == r.off &&
              loaded == r.loaded
    {
      if conf.cmdSize <= 1 {
        return false;
      }
      var ret;
      if conf.cmdSize == CMD_SIZE_DYNAMIC {
        ret := DynamicLoadDts(onProp, true);
        if ret != 0 {
          return false;
        }
        ret := DynamicLoadDts(offProp, false);
      } else {
        ret := FixedLoadDts(onProp, true);
        if ret != 0 {
          return false;
        }
        ret := FixedLoadDts(offProp, false);
      }
      loaded := ret == 0;
    }

    /** `aml_lcd_extern_get_config_unifykey`. `allocOk` is the outcome of
        `malloc` and `key` the blob `aml_lcd_unifykey_get` returns (None when it
        fails). The blob is rejected when shorter than the header, basic and
        type blocks; the name is cut at the last byte of its field; an index
        other than the requested one fails before the type block is read. */
    method GetConfigUnifykey(index: int, allocOk: bool, key: Option<seq<byte>>) returns (ret: int)
      requires Valid()
      requires key.Some? ==> |key.value| <= UKEY_LCD_EXT_SIZE
      modifies this, tableInitOn, tableInitOff
      ensures ret == UkeyRet(index, allocOk, key)
      ensures UkeyBuilt(index, allocOk, key, old(conf), old(tableInitOn[..]), old(tableInitOff[..]),
                        conf, tableInitOn[..], tableInitOff[..])
    {
      conf := conf.(tableInitLoaded := false);
      if !allocOk || key.None? {
        return -1;
      }
      var keyLen := |key.value|;
      var para := UkeyPara(key.value);
      var len := UKEY_TABLE_OFFSET;
      if LenCheckFails(keyLen, len) {
        return -1;
      }
      // basic block
      conf := conf.(name := UkeyName(para));
      conf := conf.(index := para[UKEY_INDEX_AT]);
      conf := conf.(extType := para[UKEY_TYPE_AT]);
      conf := conf.(status := para[UKEY_STATUS_AT]);
      if index != conf.index as int {
        return -1;
      }
      if conf.extType == EXTERN_I2C {
        I2cUnifykey(para, keyLen);
      } else if conf.extType == EXTERN_SPI {
        SpiUnifykey(para, keyLen);
      }
      return 0;
    }

    /** The i2c type block of the blob: address, second address, bus code
        (mapped through the bus table) and `cmd_size`, then the tables. */
    method I2cUnifykey(para: seq<byte>, keyLen: int)
      requires Valid() && |para| == UKEY_LCD_EXT_SIZE && keyLen <= |para|
      modifies this, tableInitOn, tableInitOff
      ensures var r := UkeyTables(old(tableInitOn[..]), old(tableInitOff[..]), para, keyLen,
                                  para[UKEY_VAL_AT + 3]);
              tableInitOn[..] == r.on && tableInitOff[..] == r.off &&
              conf == UkeyI2c(old(conf), para, r.loaded)
    {
      var v := UKEY_VAL_AT;
      conf := conf.(i2cAddr := para[v]);
      conf := conf.(i2cAddr2 := para[v + 1]);
      var bus := I2cBusUnifykey(para[v + 2]);
      conf := conf.(i2cBus := bus);
      conf := conf.(cmdSize := para[v + 3]);
      var loaded := LoadTablesUnifykey(para, keyLen);
      if loaded {
        conf := conf.(tableInitLoaded := true);
      }
    }

    /** The spi type block of the blob: the three gpio indices, the clock
        frequency (four bytes, least significant first), the clock polarity
        and `cmd_size`, then the tables. */
    method SpiUnifykey(para: seq<byte>, keyLen: int)
      requires Valid() && |para| == UKEY_LCD_EXT_SIZE && keyLen <= |para|
      modifies this, tableInitOn, tableInitOff
      ensures var r := UkeyTables(old(tableInitOn[..]), old(tableInitOff[..]), para, keyLen,
                                  para[UKEY_VAL_AT + 8]);
              tableInitOn[..] == r.on && tableInitOff[..] == r.off &&
              conf == UkeySpi(old(conf), para, r.loaded)
    {
      var v := UKEY_VAL_AT;
      conf := conf.(spiGpioCs := para[v]);
      conf := conf.(spiGpioClk := para[v + 1]);
      conf := conf.(spiGpioData := para[v + 2]);
      conf := conf.(spiClkFreq := Le32(para[v + 3], para[v + 4], para[v + 5], para[v + 6]));
      conf := conf.(spiClkPol := para[v + 7]);
      conf := conf.(cmdSize := para[v + 8]);
      var loaded := LoadTablesUnifykey(para, keyLen);
      if loaded {
        conf := conf.(tableInitLoaded := true);
      }
    }

    /** `aml_lcd_extern_get_config_dts`: the child node of `index` in `tree`,
        its basic properties, then the properties of its connection type and
        the tables. Fails when the child is missing or its index differs, when
        it has no `type`, or when a required property of an i2c or spi
        connection is missing; otherwise returns 0, whether or not the tables
        loaded. */
    method GetConfigDts(tree: Tree, index: int) returns (ret: int)
      requires Valid()
      requires ChildPath(index) in tree ==> NodeReadable(tree[ChildPath(index)])
      modifies this, tableInitOn, tableInitOff
      ensures ret == DtsRet(tree, index, old(conf))
      ensures DtsBuilt(tree, index, old(conf), old(tableInitOn[..]), old(tableInitOff[..]),
                       conf, tableInitOn[..], tableInitOff[..])
    {
      conf := conf.(tableInitLoaded := false);
      var child := GetDtsChild(tree, index);
      if child.None? {
        return -1;
      }
      var node := tree[child.value];
      var typed := BasicDts(node);
      if !typed {
        return -1;
      }
      if conf.extType == EXTERN_I2C {
        ret := I2cDts(node);
      } else if conf.extType == EXTERN_SPI {
        ret := SpiDts(node);
      } else {
        ret := 0;
      }
    }

    /** The basic properties of a child node: `index`, `extern_name`
        (default "invalid_name"), `status` and `type` (`LCD_EXTERN_MAX` when
        missing); `typed` says whether `type` was found. */
    method BasicDts(node: Node) returns (typed: bool)
      requires "index" in node
      modifies this
      ensures typed <==> "type" in node
      ensures conf == DtsBasic(old(conf), node)
    {
      conf := conf.(index := LowByte(Cell(node["index"])));
      var prop := NodeProp(node, "extern_name");
      conf := conf.(name := if prop.None? then Ascii("invalid_name") else CString(prop.value, 0));
      prop := NodeProp(node, "status");
      conf := conf.(status := if prop.Some? && Starts(prop.value, "ok") then 1 else 0);
      prop := NodeProp(node, "type");
      if prop.None? {
        conf := conf.(extType := EXTERN_MAX, tableInitLoaded := false);
        return false;
      }
      conf := conf.(extType := Cell(prop.value), tableInitLoaded := false);
      typed := true;
    }

    /** The i2c branch of the device-tree builder. */
    method I2cDts(node: Node) returns (ret: int)
      requires Valid() && NodeReadable(node)
      modifies this, tableInitOn, tableInitOff
      ensures var c := DtsI2c(old(conf), node);
              var on0, off0 := old(tableInitOn[..]), old(tableInitOff[..]);
              if c.1 then
                var r := DtsTables(on0, off0, NodeProp(node, "init_on"), NodeProp(node, "init_off"),
                                   c.0.cmdSize);
                ret == 0 && conf == c.0.(tableInitLoaded := c.0.tableInitLoaded || r.loaded) &&
                tableInitOn[..] == r.on && tableInitOff[..] == r.off
              else
                ret == -1 && conf == c.0 && tableInitOn[..] == on0 && tableInitOff[..] == off0
    {
      var prop := NodeProp(node, "i2c_address");
      if prop.None? {
        conf := conf.(i2cAddr := 0xff);
        return -1;
      }
      conf := conf.(i2cAddr := LowByte(Cell(prop.value)));
      prop := NodeProp(node, "i2c_second_address");
      conf := conf.(i2cAddr2 := if prop.None? then 0xff else LowByte(Cell(prop.value)));
      prop := NodeProp(node, "i2c_bus");
      if prop.None? {
        conf := conf.(i2cBus := I2C_MASTER_A);
        return -1;
      }
      conf := conf.(i2cBus := GetI2cBusStr(prop.value));
      prop := NodeProp(node, "cmd_size");
      conf := conf.(cmdSize := if prop.None? then 0 else LowByte(Cell(prop.value)));
      var loaded := LoadTablesDts(NodeProp(node, "init_on"), NodeProp(node, "init_off"));
      if loaded {
        conf := conf.(tableInitLoaded := true);
      }
      return 0;
    }

    /** The spi branch of the device-tree builder. */
    method SpiDts(node: Node) returns (ret: int)
      requires Valid() && NodeReadable(node)
      modifies this, tableInitOn, tableInitOff
      ensures var c := DtsSpi(old(conf), node);
              var on0, off0 := old(tableInitOn[..]), old(tableInitOff[..]);
              if c.1 then
                var r := DtsTables(on0, off0, NodeProp(node, "init_on"), NodeProp(node, "init_off"),
                                   c.0.cmdSize);
                ret == 0 && conf == c.0.(tableInitLoaded := c.0.tableInitLoaded || r.loaded) &&
                tableInitOn[..] == r.on && tableInitOff[..] == r.off
              else
                ret == -1 && conf == c.0 && tableInitOn[..] == on0 && tableInitOff[..] == off0
    {
      var prop := NodeProp(node, "gpio_spi_cs");
      if prop.None? {
        conf := conf.(spiGpioCs := GPIO_NUM_MAX);
        return -1;
      }
      conf := conf.(spiGpioCs := LowByte(Cell(prop.value)));
      prop := NodeProp(node, "gpio_spi_clk");
      if prop.None? {
        conf := conf.(spiGpioClk := GPIO_NUM_MAX);
        return -1;
      }
      conf := conf.(spiGpioClk := LowByte(Cell(prop.value)));
      prop := NodeProp(node, "gpio_spi_data");
      if prop.None? {
        conf := conf.(spiGpioData := GPIO_NUM_MAX);
        return -1;
      }
      conf := conf.(spiGpioData := LowByte(Cell(prop.value)));
      prop := NodeProp(node, "spi_clk_freq");
      conf := conf.(spiClkFreq := if prop.None? then SPI_CLK_FREQ_DFT else Cell(prop.value));
      prop := NodeProp(node, "spi_clk_pol");
      conf := conf.(spiClkPol := if prop.None? then 1 else LowByte(Cell(prop.value)));
      prop := NodeProp(node, "cmd_size");
      if prop.None? {
        conf := conf.(cmdSize := 0);
        return -1;
      }
      conf := conf.(cmdSize := LowByte(Cell(prop.value)));
      var loaded := LoadTablesDts(NodeProp(node, "init_on"), NodeProp(node, "init_off"));
      if loaded {
        conf := conf.(tableInitLoaded := true);
      }
      return 0;
    }

    /** `aml_lcd_extern_get_init_dts`: `key_valid` and the gpio names from the
        `/lcd_extern` node. The names of the NUL-separated list are copied
        slot by slot until an empty string or the last slot; when fewer than
        `LCD_EXTERN_GPIO_NUM_MAX` were copied, the next slot is set to
        "invalid". */
    method GetInitDts(tree: Tree) returns (ret: int)
      requires Valid()
      modifies this, gpioName
      ensures "/lcd_extern" !in tree ==> ret == -1 && conf == old(conf) && gpioName[..] == old(gpioName[..])
      ensures "/lcd_extern" in tree ==>
                var node := tree["/lcd_extern"];
                ret == 0 && conf == old(conf).(keyValid := CellByte(node, "key_valid", 0)) &&
                gpioName[..] == GpioSlots(old(gpioName[..]), GpioNames(node))
    {
      if "/lcd_extern" !in tree {
        return -1;
      }
      var node := tree["/lcd_extern"];
      var prop := NodeProp(node, "key_valid");
      conf := conf.(keyValid := if prop.None? then 0 else LowByte(Cell(prop.value)));
      var i := 0;
      prop := NodeProp(node, "extern_gpio_names");
      if prop.Some? {
        i := CopyNames(gpioName, prop.value, GPIO_NUM_MAX);
      }
      if i < GPIO_NUM_MAX {
        gpioName[i] := Ascii("invalid");
      }
      ret := 0;
    }
  }
}

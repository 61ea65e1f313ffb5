/** What the configuration builders of lcd_extern.c compute, as functions of
    their inputs: the `cmd_size` dispatch that loads the power-on table and
    then the power-off table, the fields of the unifykey blob, and the
    fixed-size device-tree loader as the source writes it. */
module LcdExternParse {
  import opened LcdExternTypes
  import opened InitTable
  import opened InitTableLemmas
  import opened DeviceTree
  import opened LcdExternLookup

  /** The two command tables after a dispatch and the `table_init_loaded` flag
      it sets. */
  datatype Tables = Tables(on: seq<byte>, off: seq<byte>, loaded: bool)

  /** The buffers of `struct lcd_extern_config_s`, with their spill room. */
  predicate Sized(on0: seq<byte>, off0: seq<byte>)
  {
    |on0| == INIT_ON_MAX + SPILL && |off0| == INIT_OFF_MAX + SPILL
  }

  /** The on load, then the off load only when the on load returned 0; the
      flag is set only when both returned 0. */
  function OnThenOff(off0: seq<byte>, a: Decoded, b: Decoded): Tables
  {
    if a.ret != 0 then Tables(a.table, off0, false) else Tables(a.table, b.table, b.ret == 0)
  }

  // ---------------------------------------------------------------------------
  // unifykey tables
  // ---------------------------------------------------------------------------

  /** One unifykey table load: dynamic or fixed by `cmdSize`, reading the blob
      `para` from the table offset with the running length at the same value. */
  function UkeyDecode(t: seq<byte>, para: seq<byte>, keyLen: int, cmdSize: byte, maxLen: nat): Decoded
    requires 1 < cmdSize && |t| >= maxLen + SPILL && keyLen <= |para|
  {
    if cmdSize == CMD_SIZE_DYNAMIC
    then DynamicDecode(t, para, 0, UKEY_TABLE_OFFSET, UKEY_TABLE_OFFSET, keyLen, maxLen)
    else FixedDecode(t, para, 0, UKEY_TABLE_OFFSET, UKEY_TABLE_OFFSET, keyLen, cmdSize, maxLen)
  }

  /** The `cmd_size` dispatch of the unifykey builder. */
  function UkeyTables(on0: seq<byte>, off0: seq<byte>, para: seq<byte>, keyLen: int, cmdSize: byte)
    : (r: Tables)
    requires Sized(on0, off0) && keyLen <= |para|
    ensures Sized(r.on, r.off)
    ensures cmdSize <= 1 ==> r == Tables(on0, off0, false)
    ensures r.loaded <==> 1 < cmdSize && UkeyDecode(on0, para, keyLen, cmdSize, INIT_ON_MAX).ret == 0
                                      && UkeyDecode(off0, para, keyLen, cmdSize, INIT_OFF_MAX).ret == 0
    ensures r.off != off0 ==> 1 < cmdSize && UkeyDecode(on0, para, keyLen, cmdSize, INIT_ON_MAX).ret == 0
  {
    if cmdSize <= 1 then Tables(on0, off0, false)
    else OnThenOff(off0, UkeyDecode(on0, para, keyLen, cmdSize, INIT_ON_MAX),
                   UkeyDecode(off0, para, keyLen, cmdSize, INIT_OFF_MAX))
  }

  /** The unifykey tables load (and the flag is set) exactly when every record
      both loads would read lies inside the key length. */
  lemma UkeyLoadedIff(on0: seq<byte>, off0: seq<byte>, para: seq<byte>, keyLen: int, cmdSize: byte)
    requires Sized(on0, off0) && UKEY_TABLE_OFFSET <= keyLen <= |para|
    ensures UkeyTables(on0, off0, para, keyLen, cmdSize).loaded <==>
              1 < cmdSize &&
              if cmdSize == CMD_SIZE_DYNAMIC
              then DynamicInBounds(para, keyLen, 0, UKEY_TABLE_OFFSET, INIT_ON_MAX) &&
                   DynamicInBounds(para, keyLen, 0, UKEY_TABLE_OFFSET, INIT_OFF_MAX)
              else FixedInBounds(para, keyLen, 0, UKEY_TABLE_OFFSET, cmdSize, INIT_ON_MAX) &&
                   FixedInBounds(para, keyLen, 0, UKEY_TABLE_OFFSET, cmdSize, INIT_OFF_MAX)
  {
    if 1 < cmdSize {
      var o := UKEY_TABLE_OFFSET;
      if cmdSize == CMD_SIZE_DYNAMIC {
        DynamicSucceedsIff(on0, para, 0, o, o, keyLen, INIT_ON_MAX);
        DynamicSucceedsIff(off0, para, 0, o, o, keyLen, INIT_OFF_MAX);
      } else {
        FixedSucceedsIff(on0, para, 0, o, o, keyLen, cmdSize, INIT_ON_MAX);
        FixedSucceedsIff(off0, para, 0, o, o, keyLen, cmdSize, INIT_OFF_MAX);
      }
    }
  }

  /** Both unifykey loads start from the same blob offset and running length,
      so a dynamic table that fits the smaller buffer is loaded into the
      power-off table as well as into the power-on table. */
  lemma UkeyOffRepeatsOn(on0: seq<byte>, off0: seq<byte>, para: seq<byte>, keyLen: int,
                         recs: seq<Record>)
    requires Sized(on0, off0) && keyLen <= |para|
    requires AllWellFormed(recs)
    requires UKEY_TABLE_OFFSET + |EncodeDynamic(recs)| + 1 <= keyLen
    requires Holds(para, UKEY_TABLE_OFFSET, EncodeDynamic(recs) + [INIT_END])
    requires |EncodeDynamic(recs)| < INIT_OFF_MAX
    ensures var e := EncodeDynamic(recs) + [INIT_END];
            UkeyTables(on0, off0, para, keyLen, CMD_SIZE_DYNAMIC)
              == Tables(Overwrite(on0, 0, e), Overwrite(off0, 0, e), true)
  {
    var o := UKEY_TABLE_OFFSET;
    DynamicRoundTrip(on0, para, 0, o, o, keyLen, INIT_ON_MAX, recs);
    DynamicRoundTrip(off0, para, 0, o, o, keyLen, INIT_OFF_MAX, recs);
  }

  // ---------------------------------------------------------------------------
  // device-tree tables
  // ---------------------------------------------------------------------------

  /** The loaders read no further than the property holds (the C code never
      asks for the property length). */
  predicate DtsReadable(prop: Option<seq<byte>>, cmdSize: byte, maxLen: nat)
  {
    prop.Some? && 1 < cmdSize ==>
      var src := DtsBytes(prop.value);
      if cmdSize == CMD_SIZE_DYNAMIC then DynamicInBounds(src, |src|, 0, 0, maxLen)
      else FixedInBounds(src, |src|, 0, 0, cmdSize, maxLen)
  }

  /** One device-tree table load: a missing property ends the table at once
      and fails; otherwise the words of the property are decoded. */
  function DtsDecode(t: seq<byte>, prop: Option<seq<byte>>, cmdSize: byte, maxLen: nat): Decoded
    requires 1 < cmdSize && |t| >= maxLen + SPILL
  {
    match prop
    case None => Decoded(t[0 := INIT_END], -1)
    case Some(v) =>
      var src := DtsBytes(v);
      if cmdSize == CMD_SIZE_DYNAMIC then DynamicDecode(t, src, 0, 0, 0, |src|, maxLen)
      else FixedDecode(t, src, 0, 0, 0, |src|, cmdSize, maxLen)
  }

  /** The `cmd_size` dispatch of the device-tree builder. */
  function DtsTables(on0: seq<byte>, off0: seq<byte>, onProp: Option<seq<byte>>,
                     offProp: Option<seq<byte>>, cmdSize: byte): (r: Tables)
    requires Sized(on0, off0)
    ensures Sized(r.on, r.off)
    ensures cmdSize <= 1 ==> r == Tables(on0, off0, false)
    ensures r.off != off0 ==> 1 < cmdSize && DtsDecode(on0, onProp, cmdSize, INIT_ON_MAX).ret == 0
  {
    if cmdSize <= 1 then Tables(on0, off0, false)
    else OnThenOff(off0, DtsDecode(on0, onProp, cmdSize, INIT_ON_MAX),
                   DtsDecode(off0, offProp, cmdSize, INIT_OFF_MAX))
  }

  /** With readable properties, the device-tree tables load (and the flag is
      set) exactly when `cmd_size` is valid and both properties exist; a
      missing `init_on` leaves the off table alone. */
  lemma DtsLoadedIff(on0: seq<byte>, off0: seq<byte>, onProp: Option<seq<byte>>,
                     offProp: Option<seq<byte>>, cmdSize: byte)
    requires Sized(on0, off0)
    requires DtsReadable(onProp, cmdSize, INIT_ON_MAX) && DtsReadable(offProp, cmdSize, INIT_OFF_MAX)
    ensures var r := DtsTables(on0, off0, onProp, offProp, cmdSize);
            (r.loaded <==> 1 < cmdSize && onProp.Some? && offProp.Some?) &&
            (1 < cmdSize && onProp.None? ==> r.on == on0[0 := INIT_END] && r.off == off0)
  {
    if 1 < cmdSize {
      DtsDecodeOk(on0, onProp, cmdSize, INIT_ON_MAX);
      DtsDecodeOk(off0, offProp, cmdSize, INIT_OFF_MAX);
    }
  }

  /** A readable property decodes successfully; a missing one fails. */
  lemma DtsDecodeOk(t: seq<byte>, prop: Option<seq<byte>>, cmdSize: byte, maxLen: nat)
    requires 1 < cmdSize && |t| >= maxLen + SPILL && DtsReadable(prop, cmdSize, maxLen)
    ensures DtsDecode(t, prop, cmdSize, maxLen).ret == 0 <==> prop.Some?
  {
    if prop.Some? {
      var src := DtsBytes(prop.value);
      if cmdSize == CMD_SIZE_DYNAMIC {
        DynamicSucceedsIff(t, src, 0, 0, 0, |src|, maxLen);
      } else {
        FixedSucceedsIff(t, src, 0, 0, 0, |src|, cmdSize, maxLen);
      }
    }
  }

  /** The fixed-size device-tree loader as written: after copying a record it
      tests the power-on table at `i` for END, whichever table it loads
      (`guard` is the power-on table; when the power-on table itself is loaded
      the test reads the record just copied). */
  function FixedDtsAsWritten(t: seq<byte>, guard: seq<byte>, on: bool, src: seq<byte>, i: nat,
                             cmdSize: byte, maxLen: nat): (r: seq<byte>)
    requires 1 < cmdSize && |t| >= maxLen + SPILL && |guard| >= maxLen && |src| >= maxLen + cmdSize
    ensures |r| == |t|
    decreases maxLen - i
  {
    if i >= maxLen then t
    else
      var t1 := CopyIn(t, i, src, i, cmdSize);
      if (if on then t1[i] else guard[i]) == INIT_END then t1
      else FixedDtsAsWritten(t1, guard, on, src, i + cmdSize, cmdSize, maxLen)
  }

  /** The stop test on the wrong table: a power-off table whose first record
      is END but whose power-on table is not END at offset 0 goes on copying,
      and the power-off table receives bytes that follow its END record. The
      decoder that tests the table being loaded stops at once. */
  lemma FixedDtsOffMissesEnd()
    ensures var t: seq<byte> := seq(INIT_OFF_MAX + SPILL, _ => 0);
            var src: seq<byte> := [INIT_END, 0, 7] + seq(INIT_OFF_MAX, _ => 0);
            var guard: seq<byte> := [1, 0, INIT_END] + seq(INIT_ON_MAX, _ => 0);
            FixedDtsAsWritten(t, guard, false, src, 0, 2, INIT_OFF_MAX)[2] == 7 &&
            FixedDecode(t, src, 0, 0, 0, |src|, 2, INIT_OFF_MAX).table[2] == 0
  {
    var t: seq<byte> := seq(INIT_OFF_MAX + SPILL, _ => 0);
    var src: seq<byte> := [INIT_END, 0, 7] + seq(INIT_OFF_MAX, _ => 0);
    var guard: seq<byte> := [1, 0, INIT_END] + seq(INIT_ON_MAX, _ => 0);
    var t1 := CopyIn(t, 0, src, 0, 2);
    CopyInAt(t, 0, src, 0, 2);
    var t2 := CopyIn(t1, 2, src, 2, 2);
    CopyInAt(t1, 2, src, 2, 2);
    assert FixedDtsAsWritten(t1, guard, false, src, 2, 2, INIT_OFF_MAX) == t2;
    assert FixedStepAt(t, src, 0, 0, 0, |src|, 2) == Stop(Decoded(t1, 0));
  }

  /** The stop test on the wrong table, the other way round: the power-on
      table's END at offset 2 stops the power-off load after two records, so
      the power-off table is left without END and without its third record,
      while the decoder that tests the table being loaded copies all three
      records and the END record. */
  lemma FixedDtsOffStopsEarly()
    ensures var t: seq<byte> := seq(INIT_OFF_MAX + SPILL, _ => 0);
            var src: seq<byte> := [1, 0, 2, 0, 3, 0, INIT_END, 0] + seq(INIT_OFF_MAX, _ => 0);
            var guard: seq<byte> := [1, 0, INIT_END] + seq(INIT_ON_MAX, _ => 0);
            var r := FixedDtsAsWritten(t, guard, false, src, 0, 2, INIT_OFF_MAX);
            var d := FixedDecode(t, src, 0, 0, 0, |src|, 2, INIT_OFF_MAX);
            r[2] == 2 && r[4] == 0 && (forall k :: 0 <= k < INIT_OFF_MAX ==> r[k] != INIT_END) &&
            d.ret == 0 && d.table[4] == 3 && d.table[6] == INIT_END
  {
    var t: seq<byte> := seq(INIT_OFF_MAX + SPILL, _ => 0);
    var src: seq<byte> := [1, 0, 2, 0, 3, 0, INIT_END, 0] + seq(INIT_OFF_MAX, _ => 0);
    var guard: seq<byte> := [1, 0, INIT_END] + seq(INIT_ON_MAX, _ => 0);
    var t1 := CopyIn(t, 0, src, 0, 2);
    CopyInAt(t, 0, src, 0, 2);
    var t2 := CopyIn(t1, 2, src, 2, 2);
    CopyInAt(t1, 2, src, 2, 2);
    assert FixedDtsAsWritten(t1, guard, false, src, 2, 2, INIT_OFF_MAX) == t2;
    // the corrected decoder: three records, then the END record
    var k := |src|;
    FixedStep(t, src, 0, 0, 0, k, 2, [1, 0]);
    var u1 := Overwrite(t, 0, [1, 0]);
    FixedUnfoldNext(t, src, 0, 0, 0, k, 2, INIT_OFF_MAX, u1);
    FixedStep(u1, src, 2, 2, 2, k, 2, [2, 0]);
    var u2 := Overwrite(u1, 2, [2, 0]);
    FixedUnfoldNext(u1, src, 2, 2, 2, k, 2, INIT_OFF_MAX, u2);
    FixedStep(u2, src, 4, 4, 4, k, 2, [3, 0]);
    var u3 := Overwrite(u2, 4, [3, 0]);
    FixedUnfoldNext(u2, src, 4, 4, 4, k, 2, INIT_OFF_MAX, u3);
    FixedEndStep(u3, src, 6, 6, 6, k, 2, [INIT_END, 0]);
    OverwriteAt(u2, 4, [3, 0]);
    OverwriteAt(u3, 6, [INIT_END, 0]);
  }

  // ---------------------------------------------------------------------------
  // unifykey blob fields
  // ---------------------------------------------------------------------------

  /** The 550-byte buffer after `aml_lcd_unifykey_get` filled it with the blob
      `key` and the builder forced a NUL at the last byte of the name field. */
  function UkeyPara(key: seq<byte>): (para: seq<byte>)
    requires |key| <= UKEY_LCD_EXT_SIZE
    ensures |para| == UKEY_LCD_EXT_SIZE
    ensures para[UKEY_HEAD_SIZE + UKEY_EXT_NAME - 1] == 0
    ensures forall k :: 0 <= k < |key| && k != UKEY_HEAD_SIZE + UKEY_EXT_NAME - 1 ==> para[k] == key[k]
    ensures forall k :: |key| <= k < |para| ==> para[k] == 0
  {
    (key + Zeros(UKEY_LCD_EXT_SIZE - |key|))[UKEY_HEAD_SIZE + UKEY_EXT_NAME - 1 := 0]
  }

  /** The name copied out of the blob: the bytes of the name field before its
      first NUL, which the forced NUL keeps inside the field. */
  function UkeyName(para: seq<byte>): (name: seq<byte>)
    requires |para| == UKEY_LCD_EXT_SIZE && para[UKEY_HEAD_SIZE + UKEY_EXT_NAME - 1] == 0
    ensures |name| < UKEY_EXT_NAME
    ensures 0 !in name && name == para[UKEY_HEAD_SIZE..UKEY_HEAD_SIZE + |name|]
    ensures para[UKEY_HEAD_SIZE + |name|] == 0
  {
    CStringBound(para, UKEY_HEAD_SIZE, UKEY_HEAD_SIZE + UKEY_EXT_NAME - 1);
    var s := CString(para, UKEY_HEAD_SIZE);
    assert s == para[UKEY_HEAD_SIZE..UKEY_HEAD_SIZE + |s|];
    s
  }

  /** A snapshot of the scalar fields of the configuration record. */
  datatype Params = Params(
    index: byte, name: seq<byte>, extType: u32, status: byte,
    i2cAddr: byte, i2cAddr2: byte, i2cBus: byte,
    spiGpioCs: byte, spiGpioClk: byte, spiGpioData: byte, spiClkFreq: u32, spiClkPol: byte,
    cmdSize: byte, tableInitLoaded: bool, keyValid: byte)

  /** The record after the basic block of the blob was read. */
  function UkeyBasic(p: Params, para: seq<byte>): Params
    requires |para| == UKEY_LCD_EXT_SIZE && para[UKEY_HEAD_SIZE + UKEY_EXT_NAME - 1] == 0
  {
    p.(name := UkeyName(para), index := para[UKEY_INDEX_AT], extType := para[UKEY_TYPE_AT],
       status := para[UKEY_STATUS_AT], tableInitLoaded := false)
  }

  /** The record after the i2c type block was read and the tables dispatched. */
  function UkeyI2c(p: Params, para: seq<byte>, loaded: bool): Params
    requires |para| == UKEY_LCD_EXT_SIZE
  {
    var v := UKEY_VAL_AT;
    p.(i2cAddr := para[v], i2cAddr2 := para[v + 1], i2cBus := LookupFrom(BUS_TABLE, para[v + 2], 0),
       cmdSize := para[v + 3], tableInitLoaded := p.tableInitLoaded || loaded)
  }

  /** The record after the spi type block was read and the tables dispatched. */
  function UkeySpi(p: Params, para: seq<byte>, loaded: bool): Params
    requires |para| == UKEY_LCD_EXT_SIZE
  {
    var v := UKEY_VAL_AT;
    p.(spiGpioCs := para[v], spiGpioClk := para[v + 1], spiGpioData := para[v + 2],
       spiClkFreq := Le32(para[v + 3], para[v + 4], para[v + 5], para[v + 6]),
       spiClkPol := para[v + 7], cmdSize := para[v + 8], tableInitLoaded := p.tableInitLoaded || loaded)
  }

  // ---------------------------------------------------------------------------
  // device-tree fields
  // ---------------------------------------------------------------------------

  /** The `cmd_size` a device-tree node gives (0 when missing). */
  function DtsCmdSize(node: Node): byte
  {
    CellByte(node, "cmd_size", 0)
  }

  /** The command-table properties of a node hold every word the loaders of
      its `cmd_size` read. */
  predicate NodeReadable(node: Node)
  {
    DtsReadable(NodeProp(node, "init_on"), DtsCmdSize(node), INIT_ON_MAX) &&
    DtsReadable(NodeProp(node, "init_off"), DtsCmdSize(node), INIT_OFF_MAX)
  }

  /** `status` is 1 exactly when the property's first two characters are
      "ok" (`strncmp` over two characters). */
  function DtsStatus(node: Node): (status: byte)
    ensures status == 1 <==> "status" in node && ByteAt(node["status"], 0) == 'o' as int &&
                             ByteAt(node["status"], 1) == 'k' as int
    ensures status == 0 || status == 1
  {
    if "status" in node && Starts(node["status"], "ok") then 1 else 0
  }

  /** The record after the basic properties of a child node were read. The
      node's `index` property exists, since the child lookup required it. */
  function DtsBasic(p: Params, node: Node): Params
  {
    p.(index := CellByte(node, "index", INDEX_INVALID),
       name := if "extern_name" in node then CString(node["extern_name"], 0) else Ascii("invalid_name"),
       status := DtsStatus(node),
       extType := if "type" in node then Cell(node["type"]) else EXTERN_MAX,
       tableInitLoaded := false)
  }

  /** The i2c properties of a node, and whether the builder goes on to the
      tables: `i2c_address` and `i2c_bus` are required (their fields get
      0xff and bus A when missing), `i2c_second_address` defaults to 0xff and
      `cmd_size` to 0. */
  function DtsI2c(p: Params, node: Node): (r: (Params, bool))
    ensures r.1 <==> "i2c_address" in node && "i2c_bus" in node
    ensures "i2c_address" !in node ==> r.0 == p.(i2cAddr := 0xff)
    ensures r.1 ==> r.0.i2cAddr2 == CellByte(node, "i2c_second_address", 0xff) &&
                    I2C_MASTER_A <= r.0.i2cBus <= I2C_MASTER_AO &&
                    r.0.cmdSize == DtsCmdSize(node) &&
                    r.0.(i2cAddr := p.i2cAddr, i2cAddr2 := p.i2cAddr2, i2cBus := p.i2cBus,
                         cmdSize := p.cmdSize) == p
    ensures r.1 ==> r.0.i2cAddr == LowByte(Cell(node["i2c_address"])) &&
                    r.0.i2cBus == GetI2cBusStr(node["i2c_bus"])
    ensures "i2c_address" in node && "i2c_bus" !in node ==>
              r.0 == p.(i2cAddr := LowByte(Cell(node["i2c_address"])),
                        i2cAddr2 := CellByte(node, "i2c_second_address", 0xff),
                        i2cBus := I2C_MASTER_A)
  {
    if "i2c_address" !in node then (p.(i2cAddr := 0xff), false)
    else
      var p1 := p.(i2cAddr := LowByte(Cell(node["i2c_address"])),
                   i2cAddr2 := CellByte(node, "i2c_second_address", 0xff));
      if "i2c_bus" !in node then (p1.(i2cBus := I2C_MASTER_A), false)
      else (p1.(i2cBus := GetI2cBusStr(node["i2c_bus"]), cmdSize := DtsCmdSize(node)), true)
  }

  /** The spi properties of a node, and whether the builder goes on to the
      tables: the three gpio indices and `cmd_size` are required (a missing
      gpio index reads as `LCD_EXTERN_GPIO_NUM_MAX`, a missing `cmd_size` as
      0), the clock frequency defaults to 10 kHz and the polarity to 1. */
  function DtsSpi(p: Params, node: Node): (r: (Params, bool))
    ensures r.1 <==> "gpio_spi_cs" in node && "gpio_spi_clk" in node && "gpio_spi_data" in node &&
                     "cmd_size" in node
    ensures r.1 ==> r.0.spiClkFreq == (if "spi_clk_freq" in node then Cell(node["spi_clk_freq"])
                                        else SPI_CLK_FREQ_DFT) &&
                    r.0.spiClkPol == CellByte(node, "spi_clk_pol", 1) &&
                    r.0.cmdSize == DtsCmdSize(node)
    ensures r.0.spiGpioCs == if "gpio_spi_cs" in node then LowByte(Cell(node["gpio_spi_cs"]))
                             else GPIO_NUM_MAX
    ensures "gpio_spi_cs" in node ==>
              r.0.spiGpioClk == if "gpio_spi_clk" in node then LowByte(Cell(node["gpio_spi_clk"]))
                                else GPIO_NUM_MAX
    ensures "gpio_spi_cs" in node && "gpio_spi_clk" in node ==>
              r.0.spiGpioData == if "gpio_spi_data" in node then LowByte(Cell(node["gpio_spi_data"]))
                                 else GPIO_NUM_MAX
    ensures !("gpio_spi_cs" in node && "gpio_spi_clk" in node && "gpio_spi_data" in node) ==>
              r.0.(spiGpioCs := p.spiGpioCs, spiGpioClk := p.spiGpioClk,
                   spiGpioData := p.spiGpioData) == p
    ensures ("gpio_spi_cs" in node && "gpio_spi_clk" in node && "gpio_spi_data" in node &&
             "cmd_size" !in node) ==> r.0.cmdSize == 0
    ensures r.0.(spiGpioCs := p.spiGpioCs, spiGpioClk := p.spiGpioClk, spiGpioData := p.spiGpioData,
                 spiClkFreq := p.spiClkFreq, spiClkPol := p.spiClkPol, cmdSize := p.cmdSize) == p
  {
    if "gpio_spi_cs" !in node then (p.(spiGpioCs := GPIO_NUM_MAX), false)
    else
      var p1 := p.(spiGpioCs := LowByte(Cell(node["gpio_spi_cs"])));
      if "gpio_spi_clk" !in node then (p1.(spiGpioClk := GPIO_NUM_MAX), false)
      else
        var p2 := p1.(spiGpioClk := LowByte(Cell(node["gpio_spi_clk"])));
        if "gpio_spi_data" !in node then (p2.(spiGpioData := GPIO_NUM_MAX), false)
        else
          var p3 := p2.(spiGpioData := LowByte(Cell(node["gpio_spi_data"])),
                        spiClkFreq := if "spi_clk_freq" in node then Cell(node["spi_clk_freq"])
                                      else SPI_CLK_FREQ_DFT,
                        spiClkPol := CellByte(node, "spi_clk_pol", 1));
          if "cmd_size" !in node then (p3.(cmdSize := 0), false)
          else (p3.(cmdSize := DtsCmdSize(node)), true)
  }

  /** The gpio names a `/lcd_extern` node lists (none when the property is
      missing). */
  function GpioNames(node: Node): (names: seq<seq<byte>>)
    ensures |names| <= GPIO_NUM_MAX
  {
    if "extern_gpio_names" in node then NameList(node["extern_gpio_names"], 0, GPIO_NUM_MAX) else []
  }

  /** Round trip for the gpio names: a list of up to `LCD_EXTERN_GPIO_NUM_MAX`
      non-empty names stored NUL-separated lands in the slots in order, and
      when the list is shorter the next slot reads "invalid". */
  lemma GpioSlotsOfJoin(slots: seq<seq<byte>>, node: Node, names: seq<seq<byte>>)
    requires |slots| == GPIO_NUM_MAX && GoodNames(names) && |names| <= GPIO_NUM_MAX
    requires "extern_gpio_names" in node && node["extern_gpio_names"] == Join(names)
    ensures var r := GpioSlots(slots, GpioNames(node));
            (forall k :: 0 <= k < |names| ==> r[k] == names[k]) &&
            (|names| < GPIO_NUM_MAX ==> r[|names|] == Ascii("invalid"))
  {
    NameListOfJoin(names, GPIO_NUM_MAX);
  }

  /** A 32-bit value assembled from four bytes, least significant first. */
  function Le32(b0: byte, b1: byte, b2: byte, b3: byte): u32
  {
    b0 as int + b1 as int * 0x100 + b2 as int * 0x1_0000 + b3 as int * 0x100_0000
  }

  lemma DivMod256(lo: int, hi: int)
    requires 0 <= lo < 0x100 && 0 <= hi
    ensures (lo + hi * 0x100) % 0x100 == lo && (lo + hi * 0x100) / 0x100 == hi
  {
  }

  /** The bytes of an assembled frequency read back least significant first. */
  lemma Le32Bytes(b0: byte, b1: byte, b2: byte, b3: byte)
    ensures var w := Le32(b0, b1, b2, b3) as int;
            w % 0x100 == b0 && w / 0x100 % 0x100 == b1 &&
            w / 0x1_0000 % 0x100 == b2 && w / 0x100_0000 == b3
  {
    var h3 := b3 as int;
    var h2 := b2 as int + h3 * 0x100;
    var h1 := b1 as int + h2 * 0x100;
    var w := b0 as int + h1 * 0x100;
    assert w == Le32(b0, b1, b2, b3) as int;
    DivMod256(b0 as int, h1);
    DivMod256(b1 as int, h2);
    DivMod256(b2 as int, h3);
    assert w / 0x1_0000 == h2;
    assert w / 0x100_0000 == h3;
  }
}

/** The driver layer of the external-panel code: attaching a driver to the
    configuration (`aml_lcd_extern_add_driver`,
    `aml_lcd_extern_add_driver_default`), the probe that chooses where the
    configuration comes from, and `aml_lcd_extern_remove`. The vendor probes,
    libfdt's header check, the unifykey store and `malloc` are outside this
    file; their answers are the fields of a `Platform`. */
module LcdExternDriver {
  import opened LcdExternTypes
  import opened DeviceTree
  import opened LcdExternLookup
  import opened LcdExternParse
  import opened LcdExternConfig

  /** What the code around the driver answers. */
  datatype Platform = Platform(
    /** `CONFIG_SYS_I2C_AML` is set. */
    sysI2c: bool,
    /** `fdt_check_header(dtaddr) >= 0`. */
    fdtHeaderOk: bool,
    /** `lcd_debug_test` is set. */
    debugTest: bool,
    /** `unifykey_test_flag` of the lcd driver is set. */
    unifykeyTest: bool,
    /** The result of `aml_lcd_unifykey_check("lcd_extern")`. */
    unifykeyCheck: int,
    /** The buffer for the unifykey blob could be allocated. */
    paraAllocOk: bool,
    /** The result of `aml_lcd_unifykey_get("lcd_extern")`: the blob, or None
        when the read failed. */
    key: Option<seq<byte>>,
    /** The driver record could be allocated. */
    driverAllocOk: bool,
    /** The result of `aml_lcd_extern_default_probe`. */
    defaultProbe: int,
    /** The result of each vendor probe that is compiled in, by driver name. */
    vendorProbe: map<seq<byte>, int>,
    /** The compiled-in vendor drivers' default indices with their names, in
        the order `aml_lcd_extern_add_driver_default` asks them. */
    vendorDefaults: seq<(int, seq<byte>)>)

  /** The driver names `aml_lcd_extern_add_i2c`, `_add_spi` and `_add_mipi`
      compare the configured name with. */
  function VendorNames(extType: u32): (names: seq<seq<byte>>)
    ensures extType > EXTERN_MIPI ==> names == []
  {
    if extType == EXTERN_I2C then
      [Ascii("i2c_T5800Q"), Ascii("i2c_tc101"), Ascii("i2c_anx6345"), Ascii("i2c_DLPC3439")]
    else if extType == EXTERN_SPI then [Ascii("spi_LD070WS2")]
    else if extType == EXTERN_MIPI then [Ascii("mipi_N070ICN"), Ascii("mipi_KD080D13")]
    else []
  }

  /** A known vendor probe: its result when compiled in, and 0 (the untouched
      `ret`) when its configuration option is off. */
  function VendorResult(plat: Platform, name: seq<byte>): int
  {
    if name in plat.vendorProbe then plat.vendorProbe[name] else 0
  }

  /** The type-specific add step of `aml_lcd_extern_add_driver`: index 0 is
      the default driver, otherwise the configured name must be one of the
      type's vendor drivers; an unsupported type, or i2c without system i2c
      support, fails with -1. */
  function AddResult(conf: Params, plat: Platform): (r: int)
    ensures conf.extType > EXTERN_MIPI ==> r == -1
    ensures conf.extType == EXTERN_I2C && !plat.sysI2c ==> r == -1
  {
    if conf.extType > EXTERN_MIPI || (conf.extType == EXTERN_I2C && !plat.sysI2c) then -1
    else if conf.index == 0 then plat.defaultProbe
    else if conf.name in VendorNames(conf.extType) then VendorResult(plat, conf.name)
    else -1
  }

  /** The vendor chain of `aml_lcd_extern_add_driver_default` from entry `k`:
      the first compiled-in vendor whose default index equals `index` is
      probed; when none does, `ret` keeps its initial -1. */
  function DefaultChain(defaults: seq<(int, seq<byte>)>, index: int, plat: Platform, k: nat): (r: int)
    requires k <= |defaults|
    ensures (forall j :: k <= j < |defaults| ==> defaults[j].0 != index) ==> r == -1
    ensures (exists j :: k <= j < |defaults| && defaults[j].0 == index) ==>
              exists j :: k <= j < |defaults| && defaults[j].0 == index &&
                          r == VendorResult(plat, defaults[j].1) &&
                          forall m :: k <= m < j ==> defaults[m].0 != index
    decreases |defaults| - k
  {
    if k == |defaults| then -1
    else if defaults[k].0 == index then VendorResult(plat, defaults[k].1)
    else DefaultChain(defaults, index, plat, k + 1)
  }

  /** The probe step of `aml_lcd_extern_add_driver_default`: index 0 is the
      default driver, any other index goes down the vendor chain. */
  function DefaultResult(index: int, plat: Platform): int
  {
    if index == 0 then plat.defaultProbe else DefaultChain(plat.vendorDefaults, index, plat, 0)
  }

  /** Where `aml_lcd_extern_probe` reads the configuration from. */
  datatype Source = FromUnifykey | FromDts | FromBsp

  /** `load_id` is 1 (device tree) when the blob has a valid header and the
      debug test is off. */
  predicate LoadDts(plat: Platform)
  {
    plat.fdtHeaderOk && !plat.debugTest
  }

  /** `lcd_ext_key_valid` as the probe tests it: forced to 1 by the unifykey
      test flag; otherwise as `aml_lcd_extern_get_init_dts` left it when the
      device tree was loaded, or as it was before. */
  predicate KeyValid(plat: Platform, tree: Tree, keyValid: byte)
  {
    plat.unifykeyTest ||
    if LoadDts(plat) && "/lcd_extern" in tree then CellByte(tree["/lcd_extern"], "key_valid", 0) != 0
    else keyValid != 0
  }

  /** The configuration source the probe picks. */
  function ProbeSource(plat: Platform, tree: Tree, keyValid: byte): (s: Source)
    ensures s == FromBsp <==> !LoadDts(plat) && !KeyValid(plat, tree, keyValid)
    ensures s == FromDts <==> LoadDts(plat) && !KeyValid(plat, tree, keyValid)
  {
    if KeyValid(plat, tree, keyValid) then FromUnifykey
    else if LoadDts(plat) then FromDts
    else FromBsp
  }

  /** `aml_lcd_extern_add_driver` attaches a driver: the configuration is
      enabled, the driver record is allocated and the add step reports 0. */
  predicate Adds(conf: Params, plat: Platform)
  {
    conf.status != 0 && plat.driverAllocOk && AddResult(conf, plat) == 0
  }

  /** A builder whose result was 0 exactly when `built`, followed (on 0) by
      `aml_lcd_extern_add_driver` on the record `c` it left: the result is 0
      exactly when both succeed, and the pointer changes only when the add
      step ran past its status test. */
  predicate BuiltThenAdded(built: bool, c: Params, plat: Platform, was: bool, ret: int, att: bool)
  {
    (ret == 0 || ret == -1) && (ret == 0 <==> built && Adds(c, plat)) &&
    att == if built && c.status != 0 then Adds(c, plat) else was
  }

  /** The unifykey path of the probe from record `c0`, tables `on0`, `off0`
      and pointer `was` to `c`, `on`, `off` and `att`: a failed store check is
      returned with nothing changed; otherwise the unifykey builder, then the
      add step. */
  ghost predicate UkeyProbed(index: int, plat: Platform, c0: Params, on0: seq<byte>, off0: seq<byte>,
                             was: bool, ret: int, c: Params, on: seq<byte>, off: seq<byte>, att: bool)
    requires plat.key.Some? ==> |plat.key.value| <= UKEY_LCD_EXT_SIZE
    requires Sized(on0, off0)
  {
    if plat.unifykeyCheck != 0 then
      ret == plat.unifykeyCheck && att == was && c == c0 && on == on0 && off == off0
    else
      UkeyBuilt(index, plat.paraAllocOk, plat.key, c0, on0, off0, c, on, off) &&
      BuiltThenAdded(UkeyRet(index, plat.paraAllocOk, plat.key) == 0, c, plat, was, ret, att)
  }

  /** The device-tree path of the probe: the device-tree builder, then the
      add step. */
  ghost predicate DtsProbed(tree: Tree, index: int, plat: Platform, c0: Params, on0: seq<byte>,
                            off0: seq<byte>, was: bool, ret: int, c: Params, on: seq<byte>,
                            off: seq<byte>, att: bool)
    requires Sized(on0, off0)
  {
    DtsBuilt(tree, index, c0, on0, off0, c, on, off) &&
    BuiltThenAdded(DtsRet(tree, index, c0) == 0, c, plat, was, ret, att)
  }

  /** `aml_lcd_extern_add_driver_default` from record `c0` and pointer `was`:
      a foreign index or a disabled configuration fails with nothing changed;
      otherwise the tables count as loaded once the record is allocated, and a
      driver is attached exactly when the default or vendor probe reports 0. */
  predicate BspProbed(index: int, plat: Platform, c0: Params, was: bool, ret: int, c: Params, att: bool)
  {
    (ret == 0 || ret == -1) &&
    if index != c0.index as int || c0.status == 0 then ret == -1 && att == was && c == c0
    else
      (ret == 0 <==> att) && att == (plat.driverAllocOk && DefaultResult(index, plat) == 0) &&
      c == if plat.driverAllocOk then c0.(tableInitLoaded := true) else c0
  }

  /** Whichever source the probe takes, a result of 0 means a driver is
      attached, a driver is attached only by a result of 0 or because one
      already was, and the result is 0 or -1 unless the store's check failed. */
  lemma ProbedResult(tree: Tree, index: int, plat: Platform, source: Source, c0: Params,
                     on0: seq<byte>, off0: seq<byte>, was: bool, ret: int, c: Params,
                     on: seq<byte>, off: seq<byte>, att: bool)
    requires plat.key.Some? ==> |plat.key.value| <= UKEY_LCD_EXT_SIZE
    requires Sized(on0, off0)
    requires source == FromUnifykey ==> UkeyProbed(index, plat, c0, on0, off0, was, ret, c, on, off, att)
    requires source == FromDts ==> DtsProbed(tree, index, plat, c0, on0, off0, was, ret, c, on, off, att)
    requires source == FromBsp ==> BspProbed(index, plat, c0, was, ret, c, att)
    ensures ret == 0 ==> att
    ensures att ==> ret == 0 || was
    ensures source != FromUnifykey || plat.unifykeyCheck == 0 ==> ret == 0 || ret == -1
  {
  }

  /** The record the probe hands to the chosen source: the loaded flag
      cleared, `key_valid` as `aml_lcd_extern_get_init_dts` read it when the
      device tree is loaded and has `/lcd_extern`, and forced to 1 by the
      unifykey test flag. */
  function ProbeStart(c: Params, plat: Platform, tree: Tree): (s: Params)
    ensures s.keyValid != 0 <==> KeyValid(plat, tree, c.keyValid)
    ensures s.(keyValid := c.keyValid) == c.(tableInitLoaded := false)
  {
    var c1 := c.(tableInitLoaded := false);
    var c2 := if LoadDts(plat) && "/lcd_extern" in tree
              then c1.(keyValid := CellByte(tree["/lcd_extern"], "key_valid", 0)) else c1;
    if plat.unifykeyTest then c2.(keyValid := 1) else c2
  }

  /** The global driver pointer and the static configuration it points to. */
  class ExternDriver {
    /** `lcd_ext_driver != NULL`. */
    var attached: bool
    /** `ext_config_dtf`. */
    const ext: ExternConfig

    predicate Valid()
      reads this
    {
      ext.Valid()
    }

    constructor (ext: ExternConfig)
      requires ext.Valid()
      ensures Valid() && this.ext == ext && !attached
    {
      this.ext := ext;
      attached := false;
    }

    /** `aml_lcd_extern_add_driver`: a disabled configuration is refused
        before anything is allocated; otherwise the driver is allocated and
        the type's add step decides; a failure frees it again, so the pointer
        is NULL. The result is 0 exactly when a driver is attached. */
    method AddDriver(plat: Platform) returns (ret: int)
      requires Valid()
      modifies this
      ensures ret == 0 || ret == -1
      ensures ret == 0 <==> Adds(ext.conf, plat)
      ensures attached == if ext.conf.status == 0 then old(attached) else Adds(ext.conf, plat)
    {
      if ext.conf.status == 0 {
        return -1;
      }
      if !plat.driverAllocOk {
        attached := false;
        return -1;
      }
      attached := true;
      ret := AddResult(ext.conf, plat);
      if ret != 0 {
        attached := false;
        return -1;
      }
    }

    /** `aml_lcd_extern_add_driver_default`: the requested index must be the
        configuration's own and the configuration enabled; after allocation
        the tables count as loaded and the default or vendor probe decides. */
    method AddDriverDefault(index: int, plat: Platform) returns (ret: int)
      requires Valid()
      modifies this, ext
      ensures BspProbed(index, plat, old(ext.conf), old(attached), ret, ext.conf, attached)
    {
      if index != ext.conf.index as int || ext.conf.status == 0 {
        return -1;
      }
      if !plat.driverAllocOk {
        attached := false;
        return -1;
      }
      attached := true;
      ext.conf := ext.conf.(tableInitLoaded := true);
      ret := DefaultResult(index, plat);
      if ret != 0 {
        attached := false;
        return -1;
      }
    }

    /** `aml_lcd_extern_probe`: an index at or above
        `LCD_EXTERN_INDEX_INVALID` is refused with nothing changed. Otherwise
        the loaded flag is cleared, a device tree with a valid header (and no
        debug test) contributes `key_valid` and the gpio names, and the
        configuration comes from the unifykey store when `key_valid` is set
        (and the store's check passes), else from the device tree, else from
        the built-in default. The driver is attached only by a probe that
        succeeds; `source` is the path taken. */
    method Probe(tree: Tree, index: int, plat: Platform) returns (ret: int, ghost source: Source)
      requires Valid()
      requires ChildPath(index) in tree ==> NodeReadable(tree[ChildPath(index)])
      requires plat.key.Some? ==> |plat.key.value| <= UKEY_LCD_EXT_SIZE
      modifies this, ext, ext.tableInitOn, ext.tableInitOff, ext.gpioName
      ensures index >= INDEX_INVALID as int ==>
                ret == -1 && attached == old(attached) && ext.conf == old(ext.conf) &&
                ext.tableInitOn[..] == old(ext.tableInitOn[..]) && ext.tableInitOff[..] == old(ext.tableInitOff[..]) &&
                ext.gpioName[..] == old(ext.gpioName[..])
      ensures index < INDEX_INVALID as int ==>
                var c0 := ProbeStart(old(ext.conf), plat, tree);
                var on0, off0 := old(ext.tableInitOn[..]), old(ext.tableInitOff[..]);
                source == ProbeSource(plat, tree, old(ext.conf.keyValid)) &&
                (source == FromUnifykey ==>
                   UkeyProbed(index, plat, c0, on0, off0, old(attached), ret,
                              ext.conf, ext.tableInitOn[..], ext.tableInitOff[..], attached)) &&
                (source == FromDts ==>
                   DtsProbed(tree, index, plat, c0, on0, off0, old(attached), ret,
                             ext.conf, ext.tableInitOn[..], ext.tableInitOff[..], attached)) &&
                (source == FromBsp ==>
                   BspProbed(index, plat, c0, old(attached), ret, ext.conf, attached) &&
                   ext.tableInitOn[..] == on0 && ext.tableInitOff[..] == off0) &&
                (!(LoadDts(plat) && "/lcd_extern" in tree) ==> ext.gpioName[..] == old(ext.gpioName[..])) &&
                (LoadDts(plat) && "/lcd_extern" in tree ==>
                   ext.gpioName[..] == GpioSlots(old(ext.gpioName[..]), GpioNames(tree["/lcd_extern"])))
    {
      if index >= INDEX_INVALID as int {
        return -1, FromBsp;
      }
      ext.conf := ext.conf.(tableInitLoaded := false);
      if LoadDts(plat) {
        var _ := ext.GetInitDts(tree);
      }
      if plat.unifykeyTest {
        ext.conf := ext.conf.(keyValid := 1);
      }
      if ext.conf.keyValid != 0 {
        source := FromUnifykey;
        ret := ProbeUnifykey(index, plat);
      } else if LoadDts(plat) {
        source := FromDts;
        ret := ProbeDts(tree, index, plat);
      } else {
        source := FromBsp;
        ret := AddDriverDefault(index, plat);
      }
    }

    /** The unifykey path of the probe: the store's check, the builder, then
        `aml_lcd_extern_add_driver`. */
    method ProbeUnifykey(index: int, plat: Platform) returns (ret: int)
      requires Valid()
      requires plat.key.Some? ==> |plat.key.value| <= UKEY_LCD_EXT_SIZE
      modifies this, ext, ext.tableInitOn, ext.tableInitOff
      ensures UkeyProbed(index, plat, old(ext.conf), old(ext.tableInitOn[..]), old(ext.tableInitOff[..]),
                         old(attached), ret, ext.conf, ext.tableInitOn[..], ext.tableInitOff[..], attached)
    {
      ret := plat.unifykeyCheck;
      if ret == 0 {
        ret := ext.GetConfigUnifykey(index, plat.paraAllocOk, plat.key);
        if ret == 0 {
          ret := AddDriver(plat);
        }
      }
    }

    /** The device-tree path of the probe: the builder, then
        `aml_lcd_extern_add_driver`. */
    method ProbeDts(tree: Tree, index: int, plat: Platform) returns (ret: int)
      requires Valid()
      requires ChildPath(index) in tree ==> NodeReadable(tree[ChildPath(index)])
      modifies this, ext, ext.tableInitOn, ext.tableInitOff
      ensures DtsProbed(tree, index, plat, old(ext.conf), old(ext.tableInitOn[..]), old(ext.tableInitOff[..]),
                        old(attached), ret, ext.conf, ext.tableInitOn[..], ext.tableInitOff[..], attached)
    {
      ret := ext.GetConfigDts(tree, index);
      if ret == 0 {
        ret := AddDriver(plat);
      }
    }

    /** `aml_lcd_extern_remove`: frees the driver; the pointer is NULL. */
    method Remove() returns (ret: int)
      modifies this
      ensures ret == 0 && !attached
    {
      attached := false;
      ret := 0;
    }
  }
}

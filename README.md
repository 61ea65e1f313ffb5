# lcd_extern: configuration and init-table loading for external LCD panels

This project models the configuration loader of the u-boot driver for
external LCD panel controllers, `drivers/display/lcd/lcd_extern/lcd_extern.c`.
The loader fills one `struct lcd_extern_config_s`, given here as the class
`LcdExternConfig.ExternConfig`. That record holds the panel's name, index,
connection type (i2c, spi or mipi), status and bus parameters. It also holds
two fixed-capacity command tables: `table_init_on` (the power-on sequence)
and `table_init_off` (the power-off sequence).

The configuration comes from one of three sources:

- a device-tree node `/lcd_extern/extern_<index>`, where every table byte is
  stored as one big-endian 32-bit word;
- the `lcd_extern` unifykey blob: a 10-byte header, a basic block (name,
  index, type, status), a 10-byte type block, and then packed table bytes.
  Before every read, a running length is checked against the key length;
- the built-in default, chosen by index.

The tables use one of two encodings, selected by `cmd_size`:

- dynamic records `[type][size][data...]`, ended by a type byte equal to
  `LCD_EXTERN_INIT_END`;
- fixed records of `cmd_size` bytes, ended by a record whose first byte is
  `LCD_EXTERN_INIT_END`.

A `cmd_size` of 1 or less leaves both tables untouched and the loaded flag
clear.

Modules, in dependency order:

- `LcdExternTypes` (lcd_extern_types.dfy): bytes, 32-bit words, `Option`,
  the header constants, and the unifykey length check.
- `DeviceTree` (device_tree.dfy): nodes and properties, big-endian cells,
  C strings, and the `%d` formatting used for child paths.
- `InitTable` (init_table.dfy): the record encodings, and each decoder as a
  function of the table, the source, the offsets and the running length.
  One decoder step is `DynamicStepAt` or `FixedStepAt`; a whole decode is
  `DynamicDecode` or `FixedDecode`.
- `InitTableLemmas` (init_table_lemmas.dfy): what the decoders promise.
  - No over-read past the declared length.
  - Success exactly when every record fits.
  - Round trips for well-formed tables.
  - The exact table left behind when a source is cut inside a record.
  - Framing.
- `LcdExternLookup` (lcd_extern_lookup.dfy):
  - the i2c bus lookups;
  - the gpio-name list walk (a method over the `gpio_name` array);
  - the child-node lookup.
- `LcdExternParse` (lcd_extern_parse.dfy):
  - the `cmd_size` dispatch for both sources;
  - the fields of the unifykey blob and of a device-tree node;
  - the fixed-size device-tree loader as line 391 writes it (see Findings).
- `LcdExternConfig` (lcd_extern_config.dfy): the class `ExternConfig`.
  - Its table arrays, its gpio-name array and its scalar fields.
  - The four table loaders as `while` loops over those arrays.
  - The two configuration builders and `aml_lcd_extern_get_init_dts`.
- `LcdExternDriver` (lcd_extern_driver.dfy): the driver pointer as the class
  `ExternDriver`, with `add_driver`, `add_driver_default`, `probe` and
  `remove`. The answers of the code around the driver are fields of a
  `Platform` value:
  - libfdt's header check;
  - the unifykey store;
  - `malloc`;
  - the vendor probes;
  - the debug and test flags;
  - `CONFIG_SYS_I2C_AML`.

Each loader method is specified by its decoder function. Its
postcondition says that the array afterwards equals that function's table,
and that the return value equals the function's return value. The
properties are then proved about the functions.

The code behaves as follows:

- The probe reads the configuration from exactly one source. It uses the
  unifykey store alone when `key_valid` is set. Otherwise it uses the device
  tree when the header check passes, and otherwise the built-in default. A
  failure of the chosen source is returned as is; no other source is tried.
- A `cmd_size` of 0 or 1 does not write END at offset 0. No decode happens
  at all.
- When the power-on table fails to load, the power-off table is not
  attempted.
- One `table_init_loaded` flag covers both tables.
- A length failure writes END at the type byte of the record that failed,
  not at offset 0. The earlier records stay in the table.
- The unifykey power-off table is decoded from the same offset, and with
  the same running length, as the power-on table. The two budgets are
  therefore one and the same, and the off table repeats the on table
  (`LcdExternParse.UkeyOffRepeatsOn`).
- A dynamic table may be written past `max_len`: only the type byte's
  offset is compared with the capacity
  (`InitTableLemmas.DynamicOverrunAccepted`).

## Model

| member | source | states |
|---|---|---|
| DeviceTree.DtsBytes | drivers/display/lcd/lcd_extern/lcd_extern.c:336-351 | the table bytes a device-tree loader sees: one per whole word, byte `k` being the low byte of big-endian word `k` |
| DeviceTree.DtsByteIsLastOfWord | drivers/display/lcd/lcd_extern/lcd_extern.c:338 | the `(unsigned char)` of a big-endian word is the word's last stored byte |
| DeviceTree.DtsBytesOfEncodeWords | drivers/display/lcd/lcd_extern/lcd_extern.c:336-351 | round trip: a table stored one byte per word reads back unchanged |
| DeviceTree.CString | drivers/display/lcd/lcd_extern/lcd_extern.c:423-431 | the string read at an offset has no NUL, equals the property bytes there, and is followed by a NUL or the end |
| DeviceTree.CStringBound | drivers/display/lcd/lcd_extern/lcd_extern.c:799-801 | a NUL at offset `z` bounds the length of every string that starts at or before it |
| DeviceTree.DigitsRoundTrip | drivers/display/lcd/lcd_extern/lcd_extern.c:241 | the digits `%d` prints for a number read back as that number |
| DeviceTree.DecimalInjective | drivers/display/lcd/lcd_extern/lcd_extern.c:241 | two numbers that print the same are equal |
| InitTable.DynamicStepAt | drivers/display/lcd/lcd_extern/lcd_extern.c:661-708 | one pass of the dynamic loop either stops with -1 or 0, or advances by 2 to 257 bytes, all within the key length |
| InitTable.DynamicDecode | drivers/display/lcd/lcd_extern/lcd_extern.c:660-711 | the dynamic decode keeps the table length and returns 0 or -1 |
| InitTable.FixedStepAt | drivers/display/lcd/lcd_extern/lcd_extern.c:735-750 | one pass of the fixed loop either stops with 0 or -1, or advances by exactly `cmd_size` within the key length |
| InitTable.FixedDecode | drivers/display/lcd/lcd_extern/lcd_extern.c:734-753 | the fixed decode keeps the table length and returns 0 or -1 |
| InitTableLemmas.DynamicStepReadsOnlyDeclared | drivers/display/lcd/lcd_extern/lcd_extern.c:661-704 | one dynamic pass depends only on the source bytes inside the key length |
| InitTableLemmas.DynamicReadsOnlyDeclared | drivers/display/lcd/lcd_extern/lcd_extern.c:661-700 | no over-read: two sources that agree on the `key_len - len` declared bytes decode identically |
| InitTableLemmas.DynamicStepInBounds | drivers/display/lcd/lcd_extern/lcd_extern.c:661-708 | a pass stops with 0 exactly at an END inside the declared bytes, and otherwise moves on exactly by the record's size, staying in bounds |
| InitTableLemmas.DynamicSucceedsIff | drivers/display/lcd/lcd_extern/lcd_extern.c:660-711 | the dynamic decode returns 0 exactly when every record it reaches lies inside the declared length |
| InitTableLemmas.DynamicStep | drivers/display/lcd/lcd_extern/lcd_extern.c:670-708 | a well-formed record inside the key length is copied whole (type, size, data) and the next record starts `2 + size` later |
| InitTableLemmas.DynamicEndStep | drivers/display/lcd/lcd_extern/lcd_extern.c:663-673 | an END type byte that passes the length check is stored and ends the decode with 0 |
| InitTableLemmas.DynamicUnfoldNext | drivers/display/lcd/lcd_extern/lcd_extern.c:661-709 | after a pass that goes on, the decode continues from the advanced table, source and length offsets |
| InitTableLemmas.DynamicFirstRecord | drivers/display/lcd/lcd_extern/lcd_extern.c:661-709 | the decode of a run of records is the first record's copy followed by the decode of the rest |
| InitTableLemmas.DynamicRoundTrip | drivers/display/lcd/lcd_extern/lcd_extern.c:660-711 | a well-formed run followed by END within the key length and capacity decodes to exactly those bytes, END included, returning 0, with every other table byte unchanged |
| InitTableLemmas.CutTable | drivers/display/lcd/lcd_extern/lcd_extern.c:664-699 | the bytes a record cut short leaves behind start with END |
| InitTableLemmas.DynamicCutStep | drivers/display/lcd/lcd_extern/lcd_extern.c:664-699 | a record cut by the key length sets its type byte to END on a type or size failure, and also keeps its size byte and zeroes its data bytes on a data failure; the result is -1 |
| InitTableLemmas.DynamicTruncated | drivers/display/lcd/lcd_extern/lcd_extern.c:660-700 | a source cut inside a record keeps the earlier records, leaves the cut record as `CutTable` says, and returns -1 |
| InitTableLemmas.DynamicCutLast | drivers/display/lcd/lcd_extern/lcd_extern.c:664-699 | the truncation result when the cut record is the first one |
| InitTableLemmas.DynamicTruncatedFirst | drivers/display/lcd/lcd_extern/lcd_extern.c:660-709 | the truncation result when whole records precede the cut one |
| InitTableLemmas.DynamicOverrunAccepted | drivers/display/lcd/lcd_extern/lcd_extern.c:661-708 | at every table offset `i < max_len`, source offset and running length, a well-formed record inside the key length that ends at or past `max_len` is copied whole into the spill area, and the decode returns 0 without writing END |
| InitTableLemmas.DynamicEmptyRecord | drivers/display/lcd/lcd_extern/lcd_extern.c:686-689 | a size-0 record inside the key length stores its type and a 0 size, and the decode goes on at table offset `i + 2` and source offset `p + 2` |
| InitTableLemmas.FixedReadsOnlyDeclared | drivers/display/lcd/lcd_extern/lcd_extern.c:735-746 | no over-read for fixed records: sources agreeing on the declared bytes decode identically |
| InitTableLemmas.FixedSucceedsIff | drivers/display/lcd/lcd_extern/lcd_extern.c:734-753 | the fixed decode returns 0 exactly when every record it reaches lies whole inside the declared length |
| InitTableLemmas.FixedStep | drivers/display/lcd/lcd_extern/lcd_extern.c:736-750 | a record that passes the check and does not start with END is copied whole, and the next one starts `cmd_size` later |
| InitTableLemmas.FixedEndStep | drivers/display/lcd/lcd_extern/lcd_extern.c:736-748 | a record starting with END is copied whole and ends the decode with 0 |
| InitTableLemmas.FixedUnfoldNext | drivers/display/lcd/lcd_extern/lcd_extern.c:735-751 | after a record that goes on, the decode continues `cmd_size` bytes later |
| InitTableLemmas.FixedRoundTrip | drivers/display/lcd/lcd_extern/lcd_extern.c:734-753 | records then an END record within the key length decode to exactly those bytes, END record included, returning 0 |
| InitTableLemmas.FixedTruncated | drivers/display/lcd/lcd_extern/lcd_extern.c:736-742 | a record is length-checked whole before any byte of it is copied: a cut record leaves only END at its start, and the result is -1 |
| InitTableLemmas.FlattenLength | drivers/display/lcd/lcd_extern/lcd_extern.c:750 | a fixed table of `n` records takes `n * cmd_size` bytes |
| InitTableLemmas.FixedRecordAt | drivers/display/lcd/lcd_extern/lcd_extern.c:743-750 | record `k` of a fixed table sits at offset `k * cmd_size` |
| LcdExternLookup.GetI2cBusStr | drivers/display/lcd/lcd_extern/lcd_extern.c:204-224 | a bus string always selects one of the five i2c masters |
| LcdExternLookup.AoTestedBeforeA | drivers/display/lcd/lcd_extern/lcd_extern.c:208-211 | `i2c_bus_ao` also has the prefix `i2c_bus_a`, yet it selects master AO, so it must be and is tested first |
| LcdExternLookup.UnknownBusIsA | drivers/display/lcd/lcd_extern/lcd_extern.c:218-221 | a string that does not start with `i2c_bus_` selects master A |
| LcdExternLookup.LookupFrom | drivers/display/lcd/lcd_extern/lcd_extern.c:626-639 | the result is the master of the first entry with the code, or `LCD_EXTERN_I2C_BUS_INVALID` when no entry has it |
| LcdExternLookup.I2cBusUnifykey | drivers/display/lcd/lcd_extern/lcd_extern.c:626-639 | the table-scanning loop returns the first matching entry's master, or INVALID when none matches |
| LcdExternLookup.BusCodes | drivers/display/lcd/lcd_extern/lcd_extern.c:618-624 | each bus code A, B, C, D and AO maps to the master of the same letter, and a code maps to INVALID exactly when it is above AO |
| LcdExternLookup.BusSourcesAgree | drivers/display/lcd/lcd_extern/lcd_extern.c:618-624 | a bus given by code in the unifykey blob and by name in the device tree selects the same master |
| LcdExternLookup.NameList | drivers/display/lcd/lcd_extern/lcd_extern.c:283-304 | the NUL-separated list reader returns at most `count` names |
| LcdExternLookup.NameListGood | drivers/display/lcd/lcd_extern/lcd_extern.c:290-300 | every name the list reader returns is non-empty and has no NUL |
| LcdExternLookup.NameListNext | drivers/display/lcd/lcd_extern/lcd_extern.c:290-300 | a non-empty string is taken, and the reader goes on past its NUL with one slot fewer |
| LcdExternLookup.NameListStop | drivers/display/lcd/lcd_extern/lcd_extern.c:294-295 | an empty string stops the reader |
| LcdExternLookup.CopyNames | drivers/display/lcd/lcd_extern/lcd_extern.c:283-302 | the gpio-name loop fills the first slots with the list's names in order, leaves the other slots unchanged, and returns how many it copied |
| LcdExternLookup.CopyStep | drivers/display/lcd/lcd_extern/lcd_extern.c:291-300 | one pass of the loop either stops at an empty string, changing nothing, or copies the next name into the next slot |
| LcdExternLookup.GpioSlots | drivers/display/lcd/lcd_extern/lcd_extern.c:283-304 | the slots after the walk hold the names, and then "invalid" when fewer than all slots were filled; later slots are unchanged |
| LcdExternLookup.NameListOfJoin | drivers/display/lcd/lcd_extern/lcd_extern.c:283-304 | round trip: a stored list of non-empty names reads back as those names, cut to `count` |
| LcdExternLookup.GetDtsChild | drivers/display/lcd/lcd_extern/lcd_extern.c:235-259 | the child is found exactly when its node exists, has `index`, and that cell equals the requested index modulo 2^32; the child is then at `/lcd_extern/extern_<index>` |
| LcdExternLookup.ChildPathInjective | drivers/display/lcd/lcd_extern/lcd_extern.c:241 | distinct indices name distinct child nodes |
| LcdExternParse.UkeyTables | drivers/display/lcd/lcd_extern/lcd_extern.c:836-856 | `cmd_size <= 1` leaves both tables and the flag clear; the flag is set exactly when both loads return 0; the off table changes only after the on load returned 0 |
| LcdExternParse.UkeyLoadedIff | drivers/display/lcd/lcd_extern/lcd_extern.c:836-856 | the unifykey tables load exactly when `cmd_size > 1` and both decoders' records stay inside the key length |
| LcdExternParse.UkeyOffRepeatsOn | drivers/display/lcd/lcd_extern/lcd_extern.c:841-846 | both loads start at the same blob offset with the same running length, so a dynamic table that fits the smaller buffer lands in both tables |
| LcdExternParse.DtsTables | drivers/display/lcd/lcd_extern/lcd_extern.c:500-521 | `cmd_size <= 1` changes nothing; the off table changes only after the on load returned 0 |
| LcdExternParse.DtsLoadedIff | drivers/display/lcd/lcd_extern/lcd_extern.c:500-521 | with readable properties, the flag is set exactly when `cmd_size > 1` and both properties exist; a missing `init_on` writes END at its offset 0 and leaves the off table alone |
| LcdExternParse.DtsDecodeOk | drivers/display/lcd/lcd_extern/lcd_extern.c:330-356 | a device-tree load returns 0 exactly when its property exists |
| LcdExternParse.FixedDtsAsWritten | drivers/display/lcd/lcd_extern/lcd_extern.c:387-395 | the fixed device-tree loop as written, with its stop test on the power-on table, keeps the table length |
| LcdExternParse.FixedDtsOffStopsEarly | drivers/display/lcd/lcd_extern/lcd_extern.c:387-395 | an END in the power-on table stops the power-off load early, leaving the off table without END, while the corrected decoder copies every record and the END record |
| LcdExternParse.FixedDtsOffMissesEnd | drivers/display/lcd/lcd_extern/lcd_extern.c:391 | an off table whose first record is END is copied past its END when the on table has no END there; the corrected decoder stops |
| LcdExternParse.UkeyPara | drivers/display/lcd/lcd_extern/lcd_extern.c:770-799 | the 550-byte buffer holds the blob, zeros after it, and a NUL forced at the last byte of the name field |
| LcdExternParse.UkeyName | drivers/display/lcd/lcd_extern/lcd_extern.c:797-801 | the copied name is the name field up to its first NUL, shorter than the field |
| LcdExternParse.DtsStatus | drivers/display/lcd/lcd_extern/lcd_extern.c:433-442 | status is 1 exactly when the property exists and its first two characters are "ok", and 0 otherwise |
| LcdExternParse.DtsI2c | drivers/display/lcd/lcd_extern/lcd_extern.c:460-497 | the builder goes on exactly when `i2c_address` and `i2c_bus` exist; a missing address sets 0xff; an address without a bus sets the address, the second address and bus A; on success the address is the cell's low byte, the bus is the named master, the second address defaults to 0xff; only the i2c fields and `cmd_size` change |
| LcdExternParse.DtsSpi | drivers/display/lcd/lcd_extern/lcd_extern.c:527-582 | the builder goes on exactly when the three gpio indices and `cmd_size` exist; each gpio index is its cell's low byte, the first missing one reads `LCD_EXTERN_GPIO_NUM_MAX` and the later ones are untouched; a missing `cmd_size` reads 0; the frequency defaults to 10000 and the polarity to 1; only the spi fields and `cmd_size` change |
| LcdExternParse.GpioNames | drivers/display/lcd/lcd_extern/lcd_extern.c:284-302 | at most `LCD_EXTERN_GPIO_NUM_MAX` names are read, and none when the property is missing |
| LcdExternParse.GpioSlotsOfJoin | drivers/display/lcd/lcd_extern/lcd_extern.c:283-304 | a stored list of up to six names lands in the slots in order, and the next slot reads "invalid" when the list is shorter |
| LcdExternParse.Le32Bytes | drivers/display/lcd/lcd_extern/lcd_extern.c:865-867 | the assembled SPI clock frequency gives back its four bytes, least significant first |
| LcdExternConfig.CopyRun | drivers/display/lcd/lcd_extern/lcd_extern.c:701-704 | the data-copy loop writes exactly the copied source bytes |
| LcdExternConfig.ZeroRun | drivers/display/lcd/lcd_extern/lcd_extern.c:697-698 | the clearing loop writes exactly `cmd_size` zeros |
| LcdExternConfig.DynamicPass | drivers/display/lcd/lcd_extern/lcd_extern.c:661-708 | one pass of the unifykey dynamic loop changes the array as `DynamicStepAt` says and reports stop or the advance |
| LcdExternConfig.FixedPass | drivers/display/lcd/lcd_extern/lcd_extern.c:736-750 | one pass of the unifykey fixed loop changes the array as `FixedStepAt` says |
| LcdExternConfig.CopyWordsRun | drivers/display/lcd/lcd_extern/lcd_extern.c:350-351 | the device-tree copy loop writes the low bytes of the copied words |
| LcdExternConfig.DynamicDtsPass | drivers/display/lcd/lcd_extern/lcd_extern.c:337-353 | one pass of the device-tree dynamic loop matches the dynamic decoder on the property's bytes |
| LcdExternConfig.FixedDtsPass | drivers/display/lcd/lcd_extern/lcd_extern.c:388-394 | one pass of the corrected device-tree fixed loop matches the fixed decoder on the property's bytes |
| LcdExternConfig.ExternConfig.DynamicLoadUnifykey | drivers/display/lcd/lcd_extern/lcd_extern.c:641-712 | the loader leaves the selected table equal to `DynamicDecode`'s table and returns its result |
| LcdExternConfig.ExternConfig.FixedLoadUnifykey | drivers/display/lcd/lcd_extern/lcd_extern.c:714-754 | the loader leaves the selected table equal to `FixedDecode`'s table and returns its result |
| LcdExternConfig.ExternConfig.DynamicLoadDts | drivers/display/lcd/lcd_extern/lcd_extern.c:309-357 | a missing property writes END at 0 and returns -1; otherwise the table is the dynamic decode of the property's bytes and the result is 0 |
| LcdExternConfig.ExternConfig.FixedLoadDts | drivers/display/lcd/lcd_extern/lcd_extern.c:359-398 | a missing property writes END at 0 and returns -1; otherwise the table is the fixed decode of the property's bytes, which stops at the END of the table being loaded |
| LcdExternConfig.ExternConfig.LoadTablesUnifykey | drivers/display/lcd/lcd_extern/lcd_extern.c:836-856 | the unifykey dispatch leaves both tables and the loaded result as `UkeyTables` says |
| LcdExternConfig.ExternConfig.LoadTablesDts | drivers/display/lcd/lcd_extern/lcd_extern.c:500-521 | the device-tree dispatch leaves both tables and the loaded result as `DtsTables` says |
| LcdExternConfig.ExternConfig.GetConfigUnifykey | drivers/display/lcd/lcd_extern/lcd_extern.c:756-924 | the result is 0 exactly when allocation and the read succeed, the blob holds at least 53 bytes and its index is the requested one; the new record and tables are `UkeyBuilt`: only the flag cleared on the early failures, the basic block alone for a foreign index or a type without a block, otherwise the i2c or spi block and the tables as `UkeyTables` says |
| LcdExternConfig.ExternConfig.I2cUnifykey | drivers/display/lcd/lcd_extern/lcd_extern.c:818-857 | the i2c block sets address, second address, mapped bus and `cmd_size`, then the tables, as `UkeyI2c` and `UkeyTables` say |
| LcdExternConfig.ExternConfig.SpiUnifykey | drivers/display/lcd/lcd_extern/lcd_extern.c:858-901 | the spi block sets the gpio indices, the little-endian frequency, the polarity and `cmd_size`, then the tables |
| LcdExternConfig.ExternConfig.GetConfigDts | drivers/display/lcd/lcd_extern/lcd_extern.c:400-615 | the result is -1 exactly for a missing or mismatched child, a missing `type`, or a missing required i2c or spi property; the new record and tables are `DtsBuilt`: the basic fields, then the i2c or spi fields, and the tables as `DtsTables` says once every required property exists |
| LcdExternConfig.ExternConfig.BasicDts | drivers/display/lcd/lcd_extern/lcd_extern.c:412-453 | index, name (default "invalid_name"), status and type (default `LCD_EXTERN_MAX`) are read as `DtsBasic` says, and the result says whether `type` exists |
| LcdExternConfig.ExternConfig.I2cDts | drivers/display/lcd/lcd_extern/lcd_extern.c:458-525 | the i2c branch returns -1 with the tables unchanged when a required property is missing, and 0 with the dispatched tables otherwise |
| LcdExternConfig.ExternConfig.SpiDts | drivers/display/lcd/lcd_extern/lcd_extern.c:526-607 | the spi branch returns -1 with the tables unchanged when a required property is missing, and 0 with the dispatched tables otherwise |
| LcdExternConfig.ExternConfig.GetInitDts | drivers/display/lcd/lcd_extern/lcd_extern.c:261-307 | a missing `/lcd_extern` node fails with nothing changed; otherwise `key_valid` is read (default 0) and the gpio slots hold the listed names, then "invalid" |
| LcdExternDriver.DefaultChain | drivers/display/lcd/lcd_extern/lcd_extern.c:1093-1143 | the first compiled-in vendor whose default index matches decides the result; with no match the result stays -1 |
| LcdExternDriver.ProbedResult | drivers/display/lcd/lcd_extern/lcd_extern.c:1196-1229 | on every path of the probe, a result of 0 means a driver is attached, a driver is attached only by a 0 result or already was, and the result is 0 or -1 unless the store's check failed |
| LcdExternDriver.ProbeStart | drivers/display/lcd/lcd_extern/lcd_extern.c:1169-1216 | the record handed to the chosen source differs from the old one only in the cleared flag and `key_valid`, which is nonzero exactly when the probe reads the key as valid |
| LcdExternDriver.ExternDriver.AddDriver | drivers/display/lcd/lcd_extern/lcd_extern.c:1009-1058 | the result is 0 exactly when the configuration is enabled, the driver is allocated and the type's add step reports 0; a disabled configuration leaves the pointer unchanged, otherwise a driver is attached exactly on success |
| LcdExternDriver.ExternDriver.AddDriverDefault | drivers/display/lcd/lcd_extern/lcd_extern.c:1060-1154 | `BspProbed`: a foreign index or a disabled configuration fails with nothing changed; otherwise the tables count as loaded after allocation, and a driver is attached exactly when the default or vendor probe reports 0, which is exactly when the result is 0 |
| LcdExternDriver.ExternDriver.Probe | drivers/display/lcd/lcd_extern/lcd_extern.c:1156-1233 | an index at or above `LCD_EXTERN_INDEX_INVALID` fails with nothing changed; otherwise, from the record `ProbeStart` describes, the unifykey path leaves what `UkeyProbed` says, the device-tree path what `DtsProbed` says, and the default path what `BspProbed` says with the tables unchanged; the gpio names change only when the device tree is loaded and has `/lcd_extern`, to the listed names |
| LcdExternDriver.ExternDriver.ProbeUnifykey | drivers/display/lcd/lcd_extern/lcd_extern.c:1196-1203 | `UkeyProbed`: a failed store check is returned with nothing changed; otherwise the record and tables are those of the unifykey builder, and the result is 0 exactly when the builder and the add step both succeed |
| LcdExternDriver.ExternDriver.ProbeDts | drivers/display/lcd/lcd_extern/lcd_extern.c:1204-1209 | `DtsProbed`: the record and tables are those of the device-tree builder, and the result is 0 exactly when the builder and the add step both succeed; the pointer changes only when the add step ran |
| LcdExternDriver.ExternDriver.Remove | drivers/display/lcd/lcd_extern/lcd_extern.c:1235-1241 | remove returns 0 and leaves the driver pointer NULL |

## Left out

- The table, header and configuration print routines (lines 43-172) only format output.
- The gpio mapping and setting wrappers (lines 174-200) are left out. They call `aml_lcd_gpio_name_map_num` and `aml_lcd_gpio_set`, which are not part of this model.
- `aml_lcd_extern_get_driver` and `aml_lcd_extern_get_dts_prop` are thin wrappers. The first returns the pointer, given here as `ExternDriver.attached`. The second is `DeviceTree.NodeProp`.
- The vendor probes and their `get_default_index` functions are outside this file. So are libfdt, the unifykey store (`aml_lcd_unifykey_get`, `_check`, `_header_check`), `malloc` and `free`. Their answers are fields of `LcdExternDriver.Platform`.
- The unifykey header check only fills a structure that is printed. Its CRC and version decoding is not part of this model.
- `LcdExternTypes.LenCheckFails`: the body of `aml_lcd_unifykey_len_check` is not part of this model. It is assumed to fail exactly when the running length exceeds the key length.
- The header constants are not part of this model. Their values are assumed:
  - `LCD_EXTERN_INIT_END` and `LCD_EXTERN_CMD_SIZE_DYNAMIC` are 0xff;
  - `LCD_EXTERN_INIT_ON_MAX` and `LCD_EXTERN_INIT_OFF_MAX` are 300 and 50;
  - the connection types `LCD_EXTERN_I2C`, `LCD_EXTERN_SPI`, `LCD_EXTERN_MIPI` and `LCD_EXTERN_MAX` are 0, 1, 2 and 3, so every type above `LCD_EXTERN_MIPI` is unsupported;
  - `LCD_EXTERN_INDEX_INVALID` is 0xff;
  - `LCD_EXTERN_SPI_CLK_FREQ_DFT` is 10000;
  - `LCD_EXTERN_GPIO_NUM_MAX` is 6;
  - the unifykey field widths are those that give the 10 + 33 + 10 layout;
  - the bus and master codes.
- No bounds check in the source protects table writes past `max_len`. Each table array is `max_len + 257` long: the memory a record starting below `max_len` can reach. Writes beyond the buffer itself are modelled as landing in that spill room, not in the neighbouring struct fields.
- The device-tree loaders never fetch a property's length. Their callers must guarantee that the property holds every word the loop reads (`DtsReadable`, `NodeReadable`). Table words past the end of a property are not modelled. Reads of strings and of single cells are: `DeviceTree.ByteAt` reads a byte past a property's end as 0, so a string ends there, and a one-cell property shorter than 4 bytes reads as if zero-padded.
- `DeviceTree.Be32At`, `Cell`, `CellByte` (and so every single-cell read: lines 253, 280, 418, 452, 466, 476, 496, 533, 541, 549, 562, 569, 581): a cell property of 1 to 3 bytes reads as the device tree's zero padding makes it read. An empty cell property also reads as 0 here, while `be32_to_cpup` in the source reads whatever follows the property in the blob; the blob layout beyond a property's value is not modelled.
- The copies into `name` and `gpio_name` are modelled as the strings they copy. `strcpy` overflows of those fixed-size fields are not modelled.
- The index re-read in `aml_lcd_extern_get_config_dts` (lines 412-419) is dead code: the child lookup already required `index`. Its failure branch is not modelled. The second END test after the data copy in the unifykey dynamic loader (lines 705-706) is dead too, because the type byte was already tested. It is omitted.
- `LcdExternConfig.ExternConfig.GetConfigDts`, `I2cDts`: the i2c branch is modelled with `CONFIG_SYS_I2C_AML` set. Without it, that branch only prints and returns 0 (line 523).
- The mipi branches (lines 608-609, 902-917) only advance a pointer that is never read again. They are modelled as doing nothing.
- `LcdExternParse.DtsTables`, `LcdExternConfig.ExternConfig.LoadTablesDts`, `I2cDts`, `SpiDts`, `GetConfigDts` (and so `LcdExternConfig.DtsBuilt`, `LcdExternDriver.DtsProbed`, `LcdExternDriver.ExternDriver.ProbeDts` and the device-tree path of `LcdExternDriver.ExternDriver.Probe`): a fixed-size power-off table is loaded with the corrected stop test of `FixedLoadDts`, which looks at the table being loaded, not with the `table_init_on[i]` test of line 391 (see Findings). The loop as written can run on past the off table's END record, reading words beyond those `NodeReadable` grants, so the as-written loop is modelled only by `LcdExternParse.FixedDtsAsWritten`.
- `LcdExternParse.Le32`: the SPI frequency's bitwise OR of shifted bytes is written as the equal sum. The C `int` overflow of the top byte's shift is not modelled.
- `LcdExternDriver.ExternDriver.Probe`, `AddDriverDefault`: a vendor or default probe may itself change the configuration. That is not modelled; the probe's result is an input.
- `LcdExternDriver.ExternDriver.Probe`: it also assigns the global `dt_addr`, which is not modelled. Only the configuration and the driver pointer are.
- The `DTB_BIND_KERNEL` and `CONFIG_OF_LIBFDT` build variants are not modelled. Without libfdt, the probe behaves as `fdtHeaderOk == false`.
- `arch/arm/cpu/armv8/axg/sdio.c` only writes pin-mux registers. It is not part of this model.

## Findings

| source | as written | input that shows it | evidently intended | confidence | as-written member | corrected member |
|---|---|---|---|---|---|---|
| drivers/display/lcd/lcd_extern/lcd_extern.c:391 | the fixed-size device-tree loader tests `table_init_on[i]` for END, even while it is loading `table_init_off` | `cmd_size` 2, an `init_off` property starting END 0 7 0, and a power-on table with no END at offset 0: the off table receives the 7 after its END record | test the table being loaded, `init_table[i]` | not executed | LcdExternParse.FixedDtsOffMissesEnd | LcdExternConfig.ExternConfig.FixedLoadDts |
| drivers/display/lcd/lcd_extern/lcd_extern.c:391 | the same test stops the power-off load at an END of the power-on table | `cmd_size` 2, a power-on table 1 0 END, and an `init_off` property 1 0 2 0 3 0 END 0: the off table keeps only 1 0 2 0 and has no END below its capacity | test the table being loaded, `init_table[i]` | not executed | LcdExternParse.FixedDtsOffStopsEarly | LcdExternConfig.ExternConfig.FixedLoadDts |

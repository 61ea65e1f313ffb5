/** Scalar types and the constants of the external-panel driver.
    The constants live in headers that are not part of this model;
    the values below are the ones the model assumes (see README). */
module LcdExternTypes {

  /** An unsigned char. */
  type byte = x: int | 0 <= x < 0x100

  /** An unsigned 32-bit value. */
  type u32 = x: int | 0 <= x < 0x1_0000_0000

  datatype Option<+T> = None | Some(value: T)

  /** Marker byte that ends a command table (`LCD_EXTERN_INIT_END`). */
  const INIT_END: byte := 0xff
  /** `cmd_size` value that selects the dynamic record encoding. */
  const CMD_SIZE_DYNAMIC: byte := 0xff

  /** Declared capacities of the power-on and power-off tables. */
  const INIT_ON_MAX: nat := 300
  const INIT_OFF_MAX: nat := 50
  /** Bytes a loader can write past the declared capacity: a record whose type
      byte sits just below `max_len` still writes its size byte and up to 255
      data bytes. */
  const SPILL: nat := 2 + 255

  /** Connection types (`enum lcd_extern_type_e`). */
  const EXTERN_I2C: nat := 0
  const EXTERN_SPI: nat := 1
  const EXTERN_MIPI: nat := 2
  const EXTERN_MAX: nat := 3

  const INDEX_INVALID: byte := 0xff
  const GPIO_NUM_MAX: nat := 6
  const SPI_CLK_FREQ_DFT: u32 := 10000

  /** Bus numbers of the i2c master driver (`AML_I2C_MASTER_*`). */
  const I2C_MASTER_A: byte := 0
  const I2C_MASTER_B: byte := 1
  const I2C_MASTER_C: byte := 2
  const I2C_MASTER_D: byte := 3
  const I2C_MASTER_AO: byte := 4

  /** Bus codes stored in the unifykey blob (`LCD_EXTERN_I2C_BUS_*`). */
  const I2C_BUS_A: byte := 0
  const I2C_BUS_B: byte := 1
  const I2C_BUS_C: byte := 2
  const I2C_BUS_D: byte := 3
  const I2C_BUS_AO: byte := 4
  const I2C_BUS_INVALID: byte := 0xff

  /** Unifykey layout: header, the 33-byte basic block, the 10-byte type block. */
  const UKEY_HEAD_SIZE: nat := 10
  const UKEY_EXT_NAME: nat := 30
  const UKEY_EXT_INDEX: nat := 1
  const UKEY_EXT_TYPE: nat := 1
  const UKEY_EXT_STATUS: nat := 1
  const UKEY_EXT_TYPE_VAL: nat := 1  // each of LCD_UKEY_EXT_TYPE_VAL_0 .. _9
  const UKEY_LCD_EXT_SIZE: nat := 550

  /** Offsets of the fields of the basic block and of the type block. */
  const UKEY_INDEX_AT: nat := UKEY_HEAD_SIZE + UKEY_EXT_NAME
  const UKEY_TYPE_AT: nat := UKEY_INDEX_AT + UKEY_EXT_INDEX
  const UKEY_STATUS_AT: nat := UKEY_TYPE_AT + UKEY_EXT_TYPE
  const UKEY_VAL_AT: nat := UKEY_STATUS_AT + UKEY_EXT_STATUS

  /** Offset of the first init-table byte in the unifykey blob: 10 + 33 + 10. */
  const UKEY_TABLE_OFFSET: nat := UKEY_HEAD_SIZE + UKEY_EXT_NAME + UKEY_EXT_INDEX
                                  + UKEY_EXT_TYPE + UKEY_EXT_STATUS + 10 * UKEY_EXT_TYPE_VAL

  /** `aml_lcd_unifykey_len_check`: an error when more bytes are needed than the key holds. */
  predicate LenCheckFails(keyLen: int, len: int)
  {
    len > keyLen
  }
}

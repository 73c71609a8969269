/** The two groups of bus constants the protocol node relies on. */
module Addresses {

  /** Multicast address of all RCC devices; the node accepts frames sent to it
      as well as frames sent to its own address. */
  const RCC_GROUP_DEVICE_ID: int := 500

  /** Values of the `part` field of the parameter services. */
  const PARAMETER_PART_FLASH: int := 0x00
  const PARAMETER_PART_FLASH_MIN: int := 0x01
  const PARAMETER_PART_FLASH_MAX: int := 0x02
  const PARAMETER_PART_RAM: int := 0x04
}

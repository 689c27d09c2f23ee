/**
  Geometry of the board's parallel NOR flash: the block count is the
  flash size divided by the sector length, set only after two assertions
  hold, that the size is a whole number of sectors and that the block
  count fits a `uint32_t` property.
 */
module Flash {
  import opened Bits
  import opened NutshellDefs
  import opened MemMap

  /** 256 KiB. */
  const FLASH_SECTOR_SIZE: nat := 256 * 1024

  /** Which of the two assertions aborts the board. */
  datatype FlashError = SizeNotAligned | TooManyBlocks

  datatype Result<T> = Success(value: T) | Failure(error: FlashError)

  /** The `num-blocks` value, or the assertion that fails first. */
  function NumBlocks(size: u64, sector: nat): (r: Result<u32>)
    requires sector > 0
    ensures r.Success? <==> size % sector == 0 && size / sector <= UINT32_MAX
    ensures r.Success? ==> r.value * sector == size
    ensures r == Failure(SizeNotAligned) <==> size % sector != 0
    ensures r == Failure(TooManyBlocks) <==> size % sector == 0 && size / sector > UINT32_MAX
  {
    if size % sector != 0 then Failure(SizeNotAligned)
    else if size / sector > UINT32_MAX then Failure(TooManyBlocks)
    else Success(size / sector)
  }

  /** Any block count a `uint32_t` holds is recovered from the size of
      that many sectors. */
  lemma NumBlocksRoundTrip(n: u32)
    ensures n * FLASH_SECTOR_SIZE < 0x1_0000_0000_0000_0000
    ensures NumBlocks(n * FLASH_SECTOR_SIZE, FLASH_SECTOR_SIZE) == Success(n)
  {
    SectorMultiple(n);
  }

  lemma SectorMultiple(n: nat)
    ensures (n * FLASH_SECTOR_SIZE) % FLASH_SECTOR_SIZE == 0
    ensures (n * FLASH_SECTOR_SIZE) / FLASH_SECTOR_SIZE == n
  {
  }

  /** The board's own table gives the flash 4 KiB against 256 KiB sectors:
      the alignment assertion fails, so flash creation aborts. */
  lemma TableFlashMisaligned()
    ensures Region(Flash).size == 0x1000 && FLASH_SECTOR_SIZE == 0x40000
    ensures NumBlocks(Region(Flash).size, FLASH_SECTOR_SIZE) == Failure(SizeNotAligned)
  {
  }

  /** The smallest sector-aligned size whose block count does not fit. */
  lemma TooManyBlocksExample()
    ensures NumBlocks(0x1_0000_0000 * FLASH_SECTOR_SIZE, FLASH_SECTOR_SIZE) == Failure(TooManyBlocks)
    ensures NumBlocks(UINT32_MAX * FLASH_SECTOR_SIZE, FLASH_SECTOR_SIZE) == Success(UINT32_MAX)
  {
    SectorMultiple(0x1_0000_0000);
    NumBlocksRoundTrip(UINT32_MAX);
  }
}

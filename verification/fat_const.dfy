/** The marks of a FAT and of a directory entry (Microsoft FAT32 File System Specification 1.03,
    sections "FAT Data Structure" and "FAT Directory Structure"). */
module FatConst {
  /** A free cluster's FAT entry, the mark written at the end of a chain, and the lowest value
      that is read as one. */
  const FREE := 0
  const END := 0xFFFF
  const EOC := 0xFFF8

  const DELETED := 0xE5
  const ATTR_LFN := 0x0F
  const ATTR_DIR := 0x10
  const ATTR_FILE := 0x20
}

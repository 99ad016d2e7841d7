/** Page frames of physical memory. */
module Pages {
  const PAGE_SIZE: nat := 4096
}

/** The table page_flag_names of page-types.c. */
module FlagTable {

  /** page_flag_names[i] without its one-letter prefix; "" where the table has no entry. */
  function Name(i: nat): string {
    match i
    case 0 => "locked"
    case 1 => "error"
    case 2 => "referenced"
    case 3 => "uptodate"
    case 4 => "dirty"
    case 5 => "lru"
    case 6 => "active"
    case 7 => "slab"
    case 8 => "writeback"
    case 9 => "reclaim"
    case 10 => "buddy"
    case 11 => "mmap"
    case 12 => "anonymous"
    case 13 => "swapcache"
    case 14 => "swapbacked"
    case 15 => "compound_head"
    case 16 => "compound_tail"
    case 17 => "huge"
    case 18 => "unevictable"
    case 19 => "hwpoison"
    case 20 => "nopage"
    case 21 => "ksm"
    case 22 => "thp"
    case 23 => "balloon"
    case 24 => "zero_page"
    case 32 => "reserved"
    case 33 => "mlocked"
    case 34 => "mappedtodisk"
    case 35 => "private"
    case 36 => "private_2"
    case 37 => "owner_private"
    case 38 => "arch"
    case 39 => "uncached"
    case 40 => "softdirty"
    case 48 => "readahead"
    case 49 => "slob_free"
    case 50 => "slub_frozen"
    case 51 => "slub_debug"
    case 62 => "file"
    case 63 => "mmap_exclusive"
    case _ => ""
  }

  predicate Named(i: nat) { Name(i) != "" }

  /** Its one-letter prefix; ' ' where the table has no entry. None is the underscore, which stands for a bit not set. */
  function Letter(i: nat): (c: char)
    ensures c != '_'
  {
    match i
    case 0 => 'L'
    case 1 => 'E'
    case 2 => 'R'
    case 3 => 'U'
    case 4 => 'D'
    case 5 => 'l'
    case 6 => 'A'
    case 7 => 'S'
    case 8 => 'W'
    case 9 => 'I'
    case 10 => 'B'
    case 11 => 'M'
    case 12 => 'a'
    case 13 => 's'
    case 14 => 'b'
    case 15 => 'H'
    case 16 => 'T'
    case 17 => 'G'
    case 18 => 'u'
    case 19 => 'X'
    case 20 => 'n'
    case 21 => 'x'
    case 22 => 't'
    case 23 => 'o'
    case 24 => 'z'
    case 32 => 'r'
    case 33 => 'm'
    case 34 => 'd'
    case 35 => 'P'
    case 36 => 'p'
    case 37 => 'O'
    case 38 => 'h'
    case 39 => 'c'
    case 40 => 'f'
    case 48 => 'I'
    case 49 => 'P'
    case 50 => 'A'
    case 51 => 'E'
    case 62 => 'F'
    case 63 => '1'
    case _ => ' '
  }
}

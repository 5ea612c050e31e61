/** Platform identifiers and the terminal classes the login policy compares
    (protocol/constant/platform_id_to_name.go). */
module Platforms {

  const IOS := 1
  const ANDROID := 2
  const WINDOWS := 3
  const OSX := 4
  const WEB := 5
  const MINI_WEB := 6
  const LINUX := 7
  const ANDROID_PAD := 8
  const IPAD := 9
  const ADMIN := 10
  const H5 := 11
  const H5_WEB := 12

  const TERMINAL_PC := "PC"
  const TERMINAL_MOBILE := "Mobile"
  const TERMINAL_PAD := "Pad"

  /** The class table; an identifier that is not in the table has the empty class,
      as a lookup of a missing key has in the original. */
  function ClassOf(platform: int): string
  {
    if platform == IOS || platform == ANDROID then TERMINAL_MOBILE
    else if platform == WINDOWS || platform == OSX || platform == LINUX then TERMINAL_PC
    else if platform == ANDROID_PAD || platform == IPAD then TERMINAL_PAD
    else if platform == WEB then "Web"
    else if platform == MINI_WEB then "MiniWeb"
    else if platform == ADMIN then "Admin"
    else if platform == H5 then "H5"
    else if platform == H5_WEB then "H5Web"
    else ""
  }

  predicate IsPC(platform: int)
  {
    ClassOf(platform) == TERMINAL_PC
  }

  /** Two platforms are of one class exactly if they are equal, both phones, both desktops, both tablets,
      or both unknown; and the desktops are the PCs. */
  lemma SameClassExactly(p: int, q: int)
    ensures ClassOf(p) == ClassOf(q)
            <==> p == q || {p, q} <= {1, 2} || {p, q} <= {3, 4, 7} || {p, q} <= {8, 9} || (!(1 <= p <= 12) && !(1 <= q <= 12))
    ensures IsPC(p) <==> p in {3, 4, 7}
  {
  }
}

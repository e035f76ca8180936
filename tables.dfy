/** The two font-size lookup tables of the converter: CSS pixels to points
    and half-points to CSS pixels.  The JavaScript objects are keyed by the
    decimal string of a size and only ever read at `String(n)` for a number
    `n`; as `String` is one-to-one on integers and `String(NaN)` is no key,
    each table is a function of the integer, `None` where the object has no
    such key.  Their values are strings that the converter only uses as
    numbers (`2 * pt`, `px + 'px'`), so they are held as numbers: twice the
    points, and the pixels. */
module Tables {
  import opened Wrappers

  /** `px2ptTab`, doubled: a font size in pixels, 9 to 33, to twice its size
      in points (the table gives whole and half points, `'7.5'` for 10). */
  function Px2PtTwice(n: int): Option<int>
  {
    match n
      case 9 => Some(14)
      case 10 => Some(15)
      case 11 => Some(17)
      case 12 => Some(18)
      case 13 => Some(20)
      case 14 => Some(21)
      case 15 => Some(23)
      case 16 => Some(24)
      case 17 => Some(26)
      case 18 => Some(27)
      case 19 => Some(29)
      case 20 => Some(30)
      case 21 => Some(32)
      case 22 => Some(33)
      case 23 => Some(35)
      case 24 => Some(36)
      case 25 => Some(38)
      case 26 => Some(39)
      case 27 => Some(41)
      case 28 => Some(42)
      case 29 => Some(44)
      case 30 => Some(45)
      case 31 => Some(47)
      case 32 => Some(48)
      case 33 => Some(50)
      case _ => None
  }

  /** `sz2pxTab`: a font size in half-points, 14 to 50, to whole pixels. */
  function Sz2PxTab(n: int): Option<int>
  {
    match n
      case 14 => Some(9)
      case 15 => Some(10)
      case 16 => Some(10)
      case 17 => Some(11)
      case 18 => Some(12)
      case 19 => Some(12)
      case 20 => Some(13)
      case 21 => Some(14)
      case 22 => Some(14)
      case 23 => Some(15)
      case 24 => Some(16)
      case 25 => Some(16)
      case 26 => Some(17)
      case 27 => Some(18)
      case 28 => Some(18)
      case 29 => Some(19)
      case 30 => Some(20)
      case 31 => Some(20)
      case 32 => Some(21)
      case 33 => Some(22)
      case 34 => Some(22)
      case 35 => Some(23)
      case 36 => Some(24)
      case 37 => Some(24)
      case 38 => Some(25)
      case 39 => Some(26)
      case 40 => Some(26)
      case 41 => Some(27)
      case 42 => Some(28)
      case 43 => Some(28)
      case 44 => Some(29)
      case 45 => Some(30)
      case 46 => Some(30)
      case 47 => Some(31)
      case 48 => Some(32)
      case 49 => Some(32)
      case 50 => Some(33)
      case _ => None
  }

  /** `px2ptTab` has entries for 9 to 33 only, and each is the pixel size
      times 3/4 rounded up to a half point: twice it is `ceil(3n/2)`. */
  lemma Px2PtEntry(n: int)
    ensures Px2PtTwice(n).Some? <==> 9 <= n <= 33
    ensures Px2PtTwice(n).Some? ==> Px2PtTwice(n).value == (3 * n + 1) / 2
  {
  }

  /** `sz2pxTab` has entries for 14 to 50 only, and each is the size times
      2/3 rounded down (a half-point is 1/144 inch, a pixel 1/96). */
  lemma Sz2PxEntry(n: int)
    ensures Sz2PxTab(n).Some? <==> 14 <= n <= 50
    ensures Sz2PxTab(n).Some? ==> Sz2PxTab(n).value == 2 * n / 3
  {
  }
}

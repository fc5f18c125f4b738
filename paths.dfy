/** Canonical (resolved, absolute) paths, modelled as the list of their components. */
module Paths {

  /** A resolved absolute path: `/etc/app/conf.ini` is `Path(["etc", "app", "conf.ini"])`. */
  datatype Path = Path(segments: seq<string>)

  /** The directory holding `p`; like `pathlib`, the root is its own parent. */
  function Parent(p: Path): (d: Path)
    ensures |d.segments| == if p.segments == [] then 0 else |p.segments| - 1
    ensures d.segments == p.segments[..|d.segments|]
  {
    if p.segments == [] then p else Path(p.segments[..|p.segments| - 1])
  }
}

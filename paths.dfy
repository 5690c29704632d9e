/**
 * Paths of the folder connector, and the hidden-path filter `_should_process_file`.
 *
 * A path is the sequence of its segments after normalisation (the result of
 * `os.path.normpath(p).split(os.sep)`); the string operations of `os.path`
 * themselves are not modelled.
 */
module Paths {
  type Segment = string
  type Path = seq<Segment>

  /** The path separator of the host, `os.sep` on a POSIX system. */
  const Separator: char := '/'

  /** A segment is hidden when it starts with a dot; `.` and `..` are hidden too. */
  predicate IsHidden(name: Segment) {
    |name| > 0 && name[0] == '.'
  }

  /**
   * `_should_process_file`: a path is processed exactly when none of its
   * segments is hidden.
   */
  function ShouldProcessFile(p: Path): (r: bool)
    ensures r <==> forall i :: 0 <= i < |p| ==> !IsHidden(p[i])
  {
    if p == [] then true else !IsHidden(p[0]) && ShouldProcessFile(p[1..])
  }

  /** The last segment of a path, `os.path.basename`; empty for the empty path. */
  function Basename(p: Path): Segment
  {
    if p == [] then [] else p[|p| - 1]
  }

  /** The text of a path, its segments joined by the separator (`os.path.join`). */
  function PathText(p: Path): string
  {
    if p == [] then []
    else if |p| == 1 then p[0]
    else p[0] + [Separator] + PathText(p[1..])
  }
}

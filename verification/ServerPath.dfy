/** Paths on the server, as far as comparing and nesting them goes. */
module ServerPath {

  datatype Path = NoPath | Path(kind: nat, prefix: string, segments: seq<string>) {

    /** `IsSubdirOf` with case-sensitive comparison, not allowing equality. */
    predicate IsSubdirOf(other: Path) {
      && Path? && other.Path?
      && kind == other.kind && prefix == other.prefix
      && other.segments < segments
    }

    /** `AddSegment`. */
    function AddSegment(segment: string): Path {
      if NoPath? then NoPath else Path(kind, prefix, segments + [segment])
    }
  }
}

/** The signed release manifest: which file it lists, and whether bytes are that file. */
module Release {
  import opened Wrappers

  type Bytes = seq<bv8>

  const MAX_INT64 := TWO63 - 1

  datatype Artifact = Artifact(os: string, arch: string, sha256: string, size: int64, url: string)

  datatype Manifest = Manifest(sequence: int64, versions: map<string, seq<Artifact>>)

  /** A download: the bytes that arrive, and whether they end in an error. */
  datatype Stream = Stream(bytes: Bytes, broken: bool)

  datatype Copied = Good | WrongBytes | Interrupted

  /** a manifest older than what was already accepted is refused; an equal one is not. */
  predicate Fresh(m: Manifest, seen: int) {
    m.sequence >= seen
  }

  /** Entry i is the first of the list for this platform. */
  predicate First(entries: seq<Artifact>, os: string, arch: string, i: nat) {
    && i < |entries| && entries[i].os == os && entries[i].arch == arch
    && forall j :: 0 <= j < i ==> entries[j].os != os || entries[j].arch != arch
  }

  /** The manifest lists `a` for this version and platform. An unusable first entry hides later ones. */
  ghost predicate Lists(m: Manifest, version: string, os: string, arch: string, a: Artifact) {
    && version in m.versions && a.sha256 != "" && a.url != ""
    && exists i: nat :: First(m.versions[version], os, arch, i) && m.versions[version][i] == a
  }

  method Find(m: Manifest, version: string, os: string, arch: string) returns (r: Option<Artifact>)
    ensures forall a :: r == Some(a) <==> Lists(m, version, os, arch, a)
  {
    if version !in m.versions {
      return None;
    }
    var entries := m.versions[version];
    for i := 0 to |entries|
      invariant forall j :: 0 <= j < i ==> entries[j].os != os || entries[j].arch != arch
    {
      if entries[i].os == os && entries[i].arch == arch {
        assert First(entries, os, arch, i);
        if entries[i].sha256 == "" || entries[i].url == "" {
          return None;
        }
        return Some(entries[i]);
      }
    }
    return None;
  }

  method EqualHex(a: string, b: string) returns (same: bool)
    ensures same == EqualFold(a, b)
  {
    if |a| != |b| {
      return false;
    }
    for i := 0 to |a|
      invariant forall j :: 0 <= j < i ==> Lower(a[j]) == Lower(b[j])
    {
      var x, y := a[i], b[i];
      if 'A' <= x <= 'Z' {
        x := ((x as int) + 32) as char;
      }
      if 'A' <= y <= 'Z' {
        y := ((y as int) + 32) as char;
      }
      if x != y {
        return false;
      }
    }
    return true;
  }

  /** The bytes are exactly what the manifest declares. */
  predicate Declared(a: Artifact, bytes: Bytes, digest: Bytes -> string) {
    |bytes| == a.size && EqualFold(digest(bytes), a.sha256)
  }

  /** Copies while hashing. `room` is how much the disk takes. Nothing past the declared size and one byte
      is ever written, whatever the source sends. */
  method CopyVerified(src: Stream, a: Artifact, digest: Bytes -> string, room: nat)
    returns (written: Bytes, r: Copied)
    ensures written <= src.bytes && (written == [] || |written| <= a.size + 1)
    ensures r.Good? <==> Declared(a, src.bytes, digest) && a.size != MAX_INT64 && !src.broken && a.size <= room
    ensures r.Good? ==> written == src.bytes
    ensures r.Interrupted? ==> (|written| == room && room < |src.bytes|) || (src.broken && written == src.bytes)
    ensures r.WrongBytes? ==> !Declared(a, src.bytes, digest) || a.size == MAX_INT64
  {
    written := [];
    // One byte past the declared size, in 64 bits.
    var limit := Plus64(a.size, 1);
    while |written| < limit && |written| < |src.bytes|
      invariant |written| <= |src.bytes| && written == src.bytes[..|written|]
      invariant |written| <= room && (|written| <= limit || written == [])
    {
      if |written| == room {
        return written, Interrupted;
      }
      written := written + [src.bytes[|written|]];
    }
    if |written| < limit && src.broken {
      return written, Interrupted;
    }
    if |written| != a.size {
      return written, WrongBytes;
    }
    assert written == src.bytes;
    var same := EqualHex(digest(written), a.sha256);
    r := if same then Good else WrongBytes;
  }
}

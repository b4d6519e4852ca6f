// Retention classes and availability of blobs, as the catalog records them.

module BlobCatalog {

  datatype Class = Core | Evidence | Bulk | Scratch

  datatype Availability = Hot | Archived | Evicted

  /** Core first: the smaller the rank, the longer a blob is kept. */
  function Rank(c: Class): nat {
    match c case Core => 0 case Evidence => 1 case Bulk => 2 case Scratch => 3
  }

  /** The class a blob keeps when references of two classes name it. */
  function Merge(a: Class, b: Class): (c: Class)
    ensures c == a || c == b
    ensures Rank(c) <= Rank(a) && Rank(c) <= Rank(b)
  {
    if a.Core? || b.Core? then Core
    else if a.Evidence? || b.Evidence? then Evidence
    else if a.Bulk? || b.Bulk? then Bulk
    else Scratch
  }
}

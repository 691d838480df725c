/**
 * Flash memory of an ESP32 target as the loader library exposes it: sector erase, programming
 * that can only clear bits, and what image ranges must satisfy for several images to coexist.
 */
module Esp32Flash {
  import opened Base
  import opened Jobs
  import opened Memory

  const SECTOR: nat := 4096
  const BLOCK: nat := 4096

  /** Largest limit for which a sector end always fits 32 bits. */
  const EXACT_LIMIT: int := 0xFFFF_F000

  function SectorStart(offset: nat): nat { AlignDown(offset, SECTOR) }
  function SectorEnd(offset: nat, len: nat): nat { AlignUp(offset + len, SECTOR) }

  /** Every sector that [offset, offset + len) touches becomes 0xFF. */
  function EraseSectors(f: Bytes, offset: nat, len: nat): (r: Bytes)
    ensures |r| == |f|
  {
    Erased(f, SectorStart(offset), SectorEnd(offset, len))
  }

  /** flash_start, then data streamed from offset on. */
  function Programmed(f: Bytes, offset: nat, data: Bytes): Bytes {
    Nor(EraseSectors(f, offset, |data|), offset, data)
  }

  lemma SectorsCover(offset: nat, len: nat)
    ensures SectorStart(offset) <= offset && offset + len <= SectorEnd(offset, len) < offset + len + SECTOR
    ensures SectorStart(offset) % SECTOR == 0 && SectorEnd(offset, len) % SECTOR == 0
  {
  }

  /** Writing after an erase stores exactly the data, and spares every other sector. */
  lemma ProgrammedHolds(f: Bytes, offset: nat, data: Bytes)
    requires offset + |data| <= |f|
    ensures Holds(Programmed(f, offset, data), offset, data)
    ensures forall i :: 0 <= i < |f| && !(SectorStart(offset) <= i < SectorEnd(offset, |data|)) ==>
              Programmed(f, offset, data)[i] == f[i]
  {
    SectorsCover(offset, |data|);
    NorOnBlank(EraseSectors(f, offset, |data|), offset, data);
  }

  /** An image elsewhere survives when the two share no sector. */
  lemma OtherImageSurvives(f: Bytes, offset: nat, data: Bytes, other: nat, kept: Bytes)
    requires Holds(f, other, kept) && offset + |data| <= |f|
    requires SectorEnd(other, |kept|) <= SectorStart(offset) || SectorEnd(offset, |data|) <= SectorStart(other)
    ensures Holds(Programmed(f, offset, data), other, kept)
  {
    ProgrammedHolds(f, offset, data);
    SectorsCover(other, |kept|);
    SectorsCover(offset, |data|);
    var p := Programmed(f, offset, data);
    var l, r := p[other..other + |kept|], f[other..other + |kept|];
    forall i | 0 <= i < |kept|
      ensures l[i] == r[i]
    {
      assert l[i] == p[other + i] && r[i] == f[other + i];
    }
    assert l == r;
  }

  // ---- which sets of images are accepted ---------------------------------

  /** One image on its own: readable, non-empty, aligned and inside the limit. */
  predicate ImageFits(files: Files, image: CfgImage, limit: uint32) {
    && image.path in files
    && 0 < |files[image.path]| <= U32 - 4
    && image.offset % 4 == 0
    && image.offset <= limit && PaddedLen(|files[image.path]|) <= limit - image.offset
  }

  function ImageEnd(files: Files, image: CfgImage): nat
    requires image.path in files
  {
    SectorEnd(image.offset, PaddedLen(|files[image.path]|))
  }

  /** A sector range as the code stores it: the end is truncated to 32 bits. */
  datatype StoredRange = StoredRange(start: nat, end: uint32)

  function RangeOf(files: Files, image: CfgImage): StoredRange
    requires image.path in files
  {
    StoredRange(SectorStart(image.offset), Wrap(ImageEnd(files, image)))
  }

  predicate Overlap(a: StoredRange, b: StoredRange) { a.start < b.end && b.start < a.end }

  /** The overlap test as computed. */
  predicate TestedApart(files: Files, a: CfgImage, b: CfgImage)
    requires a.path in files && b.path in files
  {
    !Overlap(RangeOf(files, a), RangeOf(files, b))
  }

  /** No erase sector is shared. */
  predicate SectorsApart(files: Files, a: CfgImage, b: CfgImage)
    requires a.path in files && b.path in files
  {
    ImageEnd(files, a) <= SectorStart(b.offset) || ImageEnd(files, b) <= SectorStart(a.offset)
  }

  predicate AllFit(files: Files, images: seq<CfgImage>, limit: uint32) {
    forall i :: 0 <= i < |images| ==> ImageFits(files, images[i], limit)
  }

  /** What validate_images accepts. */
  predicate ImagesAccepted(files: Files, images: seq<CfgImage>, limit: uint32) {
    && AllFit(files, images, limit)
    && (forall i, j :: 0 <= j < i < |images| ==> TestedApart(files, images[i], images[j]))
  }

  predicate PairwiseApart(files: Files, images: seq<CfgImage>)
    requires forall i :: 0 <= i < |images| ==> images[i].path in files
  {
    forall i, j :: 0 <= j < i < |images| ==> SectorsApart(files, images[i], images[j])
  }

  /** The image reaches into the last sector, whose end does not fit 32 bits. */
  predicate EndsHigh(files: Files, image: CfgImage)
    requires image.path in files
  {
    image.offset + PaddedLen(|files[image.path]|) > EXACT_LIMIT
  }

  /** Only the last sector of the address space rounds up to 2^32. */
  lemma TopSector(end: nat)
    requires end <= U32
    ensures end <= EXACT_LIMIT ==> AlignUp(end, SECTOR) <= EXACT_LIMIT
    ensures end > EXACT_LIMIT ==> AlignUp(end, SECTOR) == U32
    ensures Wrap(AlignUp(end, SECTOR)) == AlignUp(end, SECTOR) <==> end <= EXACT_LIMIT
  {
    var q := (end + SECTOR - 1) / SECTOR;
    assert q * SECTOR <= end + SECTOR - 1 < q * SECTOR + SECTOR;
    assert AlignUp(end, SECTOR) == q * SECTOR;
  }

  /** The truncation is exact precisely for images that end at or below the exact limit. */
  lemma ExactEnd(files: Files, image: CfgImage, limit: uint32)
    requires ImageFits(files, image, limit)
    ensures Wrap(ImageEnd(files, image)) == ImageEnd(files, image) <==> !EndsHigh(files, image)
    ensures EndsHigh(files, image) ==> RangeOf(files, image).end == 0
  {
    TopSector(image.offset + PaddedLen(|files[image.path]|));
  }

  /**
   * What the overlap test decides, at every limit: it tells two images apart exactly when they
   * share no sector, or one of them reaches into the last sector, which blinds it.
   */
  lemma TestedApartIff(files: Files, a: CfgImage, b: CfgImage, limit: uint32)
    requires ImageFits(files, a, limit) && ImageFits(files, b, limit)
    ensures TestedApart(files, a, b) <==> SectorsApart(files, a, b) || EndsHigh(files, a) || EndsHigh(files, b)
  {
    ExactEnd(files, a, limit);
    ExactEnd(files, b, limit);
  }

  /** What validate_images accepts, at every limit: it is right exactly about pairs below the last sector. */
  lemma AcceptedIff(files: Files, images: seq<CfgImage>, limit: uint32)
    ensures ImagesAccepted(files, images, limit) <==>
            && AllFit(files, images, limit)
            && forall i, j :: 0 <= j < i < |images| ==>
                 SectorsApart(files, images[i], images[j]) || EndsHigh(files, images[i]) || EndsHigh(files, images[j])
  {
    if AllFit(files, images, limit) {
      forall i, j | 0 <= j < i < |images|
        ensures TestedApart(files, images[i], images[j]) <==>
                SectorsApart(files, images[i], images[j]) || EndsHigh(files, images[i]) || EndsHigh(files, images[j])
      {
        assert ImageFits(files, images[i], limit) && ImageFits(files, images[j], limit);
        TestedApartIff(files, images[i], images[j], limit);
      }
    }
  }

  /** Up to the exact limit the acceptance means what it says, in both directions. */
  lemma AcceptedIffDisjoint(files: Files, images: seq<CfgImage>, limit: uint32)
    requires limit <= EXACT_LIMIT
    ensures ImagesAccepted(files, images, limit) <==> AllFit(files, images, limit) && PairwiseApart(files, images)
  {
    AcceptedIff(files, images, limit);
    assert forall i :: 0 <= i < |images| && ImageFits(files, images[i], limit) ==> !EndsHigh(files, images[i]);
  }

  /**
   * Above it, an image that reaches into the last sector is accepted next to any other that
   * fits: in particular next to one at the same offset.
   */
  lemma TruncationHidesOverlap(files: Files, a: CfgImage, b: CfgImage, limit: uint32)
    requires ImageFits(files, a, limit) && ImageFits(files, b, limit) && EndsHigh(files, a)
    ensures ImagesAccepted(files, [a, b], limit) && ImagesAccepted(files, [b, a], limit)
    ensures a.offset == b.offset ==> !SectorsApart(files, a, b)
  {
    AcceptedIff(files, [a, b], limit);
    AcceptedIff(files, [b, a], limit);
    SectorsCover(a.offset, PaddedLen(|files[a.path]|));
    SectorsCover(b.offset, PaddedLen(|files[b.path]|));
  }
}

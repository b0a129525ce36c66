/** The public project dialog: the media gallery over a project's images,
    screenshots and videos, stepped by the arrow buttons and the thumbnails. */
module ProjectDialog {
  import opened Wrappers
  import opened Text
  import opened Schema
  import opened Upload

  /** The gallery's media: images, then screenshots, then videos. */
  function AllMedia(p: InsertProject): (r: seq<string>)
    ensures |r| == |p.imageUrls| + |p.screenshots| + |p.videoUrls|
    ensures r[..|p.imageUrls|] == p.imageUrls
    ensures r[|p.imageUrls|..|p.imageUrls| + |p.screenshots|] == p.screenshots
    ensures r[|p.imageUrls| + |p.screenshots|..] == p.videoUrls
    ensures forall u :: u in r <==> u in p.imageUrls || u in p.screenshots || u in p.videoUrls
  {
    var r := p.imageUrls + p.screenshots + p.videoUrls;
    assert r[..|p.imageUrls|] == p.imageUrls;
    assert r[|p.imageUrls|..|p.imageUrls| + |p.screenshots|] == p.screenshots;
    r
  }

  /** A URL is played as a video when it ends in ".mp4" or mentions YouTube. */
  predicate IsVideo(url: string) {
    EndsWith(url, ".mp4") || Contains(url, "youtube.com")
  }

  /** What the main area of the gallery shows: a video player or an image. */
  datatype Medium = Video(url: string) | Image(url: string)

  function ShownAs(url: string): (m: Medium)
    ensures m.url == url && (m.Video? <==> IsVideo(url))
  {
    if IsVideo(url) then Video(url) else Image(url)
  }

  /** The error `isVideo` raises when it is handed `undefined`. */
  const UndefinedEndsWith: string := "TypeError: Cannot read properties of undefined (reading 'endsWith')"

  /** The main area as written: `isVideo(allMedia[currentMediaIndex])`.
      Past the end of the list the element is `undefined`, and calling
      `endsWith` on it throws, so the dialog does not render. */
  function RenderAsWritten(media: seq<string>, i: nat): (r: Result<Medium>)
    ensures r.Err? <==> i >= |media|
    ensures r.Err? ==> r.message == UndefinedEndsWith
    ensures r.Ok? ==> r.value == ShownAs(media[i])
  {
    if i < |media| then Ok(ShownAs(media[i])) else Err(UndefinedEndsWith)
  }

  /** A project without images, screenshots and videos, which the schema
      accepts, makes the dialog throw as soon as it opens at index 0. */
  lemma NoMediaThrows(p: InsertProject)
    requires p.imageUrls == [] && p.screenshots == [] && p.videoUrls == []
    ensures RenderAsWritten(AllMedia(p), 0) == Err(UndefinedEndsWith)
  {
  }

  lemma EndsWithSuffix(a: string, e: string)
    ensures EndsWith(a + e, e)
  {
    assert (a + e)[|a + e| - |e|..] == e;
  }

  /** A stored upload whose original name ends in ".mp4" is served from a URL
      the gallery plays as a video. */
  lemma Mp4UploadIsVideo(timestamp: nat, random: nat, originalname: string)
    requires Extname(originalname) == ".mp4"
    ensures IsVideo(FileUrl(StoredFilename(FileField, timestamp, random, originalname)))
  {
    UploadUrlShape(timestamp, random, originalname);
    EndsWithSuffix("/uploads/file-" + NatToString(timestamp) + "-" + NatToString(random), ".mp4");
  }

  // ---------------------------------------------------------------------
  // Index arithmetic
  // ---------------------------------------------------------------------

  /** The index after the "next" button, wrapping from the last to the first. */
  function NextIndex(i: int, n: int): (r: int)
    requires 0 <= i < n
    ensures 0 <= r < n
    ensures i < n - 1 ==> r == i + 1
    ensures i == n - 1 ==> r == 0
  {
    (i + 1) % n
  }

  /** The index after the "previous" button, wrapping from the first to the
      last; the added `n` keeps the dividend non-negative. */
  function PrevIndex(i: int, n: int): (r: int)
    requires 0 <= i < n
    ensures 0 <= r < n
    ensures i > 0 ==> r == i - 1
    ensures i == 0 ==> r == n - 1
  {
    (i - 1 + n) % n
  }

  /** "Previous" undoes "next", and "next" undoes "previous". */
  lemma PrevUndoesNext(i: int, n: int)
    requires 0 <= i < n
    ensures PrevIndex(NextIndex(i, n), n) == i
    ensures NextIndex(PrevIndex(i, n), n) == i
  {
  }

  /** The index after `k` presses of "next". */
  function Advance(i: int, n: int, k: nat): (r: int)
    requires 0 <= i < n
    ensures 0 <= r < n
  {
    if k == 0 then i else NextIndex(Advance(i, n, k - 1), n)
  }

  /** Within one lap, `k` presses of "next" move the index `k` places,
      wrapping past the last medium at most once. */
  lemma {:induction false} AdvanceWithinLap(i: int, n: int, k: nat)
    requires 0 <= i < n && k <= n
    ensures Advance(i, n, k) == if i + k < n then i + k else i + k - n
  {
    if k > 0 {
      AdvanceWithinLap(i, n, k - 1);
    }
  }

  /** Pressing "next" as many times as there are media returns to the start. */
  lemma FullCycle(i: int, n: int)
    requires 0 <= i < n
    ensures Advance(i, n, n) == i
  {
    AdvanceWithinLap(i, n, n);
  }

  /** The text under "About the Project": the long description unless it is
      null or empty, else the short description. */
  function DisplayedDescription(p: InsertProject): (r: string)
    ensures p.longDescription.Some? && p.longDescription.value != [] ==> r == p.longDescription.value
    ensures p.longDescription.None? || p.longDescription.value == [] ==> r == p.description
  {
    if p.longDescription.Some? && p.longDescription.value != [] then p.longDescription.value else p.description
  }

  // ---------------------------------------------------------------------
  // The gallery's state
  // ---------------------------------------------------------------------

  class Gallery {
    const media: seq<string>
    var currentMediaIndex: int

    /** The index points at a medium, or is the initial 0 of an empty gallery. */
    ghost predicate Valid()
      reads this
    {
      if media == [] then currentMediaIndex == 0 else 0 <= currentMediaIndex < |media|
    }

    constructor(p: InsertProject)
      ensures media == AllMedia(p) && currentMediaIndex == 0 && Valid()
    {
      media := AllMedia(p);
      currentMediaIndex := 0;
    }

    /** The medium on show: none in an empty gallery, otherwise the one at
        the index, shown as a video or as an image. */
    function Current(): (r: Option<Medium>)
      reads this
      requires Valid()
      ensures r.None? <==> media == []
      ensures r.Some? ==> r.value == ShownAs(media[currentMediaIndex]) && r.value.url in media
    {
      if media == [] then None else Some(ShownAs(media[currentMediaIndex]))
    }

    /** The "next" button (shown only when there is more than one medium). */
    method NextMedia()
      requires Valid() && |media| > 1
      modifies this
      ensures Valid()
      ensures currentMediaIndex == NextIndex(old(currentMediaIndex), |media|)
    {
      currentMediaIndex := (currentMediaIndex + 1) % |media|;
    }

    /** The "previous" button (shown only when there is more than one medium). */
    method PrevMedia()
      requires Valid() && |media| > 1
      modifies this
      ensures Valid()
      ensures currentMediaIndex == PrevIndex(old(currentMediaIndex), |media|)
    {
      currentMediaIndex := (currentMediaIndex - 1 + |media|) % |media|;
    }

    /** A click on thumbnail `k` shows medium `k`. */
    method SelectThumbnail(k: int)
      requires Valid() && 0 <= k < |media|
      modifies this
      ensures Valid() && currentMediaIndex == k
      ensures Current() == Some(ShownAs(media[k]))
    {
      currentMediaIndex := k;
    }
  }

  /** Wherever the source renders, the gallery shows what it shows; it only
      differs on an empty gallery, where the source throws. */
  lemma CurrentMatchesAsWritten(g: Gallery)
    requires g.Valid()
    ensures g.media != [] ==> RenderAsWritten(g.media, g.currentMediaIndex) == Ok(g.Current().value)
    ensures g.media == [] ==> RenderAsWritten(g.media, g.currentMediaIndex).Err? && g.Current().None?
  {
  }
}

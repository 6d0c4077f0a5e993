/** src/lib/pdfImporter.ts: grouping extracted page images into flipbook pages, and the stock
    images used when no page could be rendered. */
module PdfBatching {
  import opened Common

  /** `combinePageImages`: one flipbook page per batch of `pagesPerFlipbookPage` images, shown by
      the batch's first image. The loop advances by the batch size, so it ends only for a size of
      at least one. */
  method CombinePageImages(images: seq<string>, pagesPerFlipbookPage: int) returns (combined: seq<string>)
    requires pagesPerFlipbookPage >= 1
    ensures |combined| == (|images| + pagesPerFlipbookPage - 1) / pagesPerFlipbookPage
    ensures forall j :: 0 <= j < |combined| ==>
      j * pagesPerFlipbookPage < |images| && combined[j] == images[j * pagesPerFlipbookPage]
    ensures pagesPerFlipbookPage == 1 ==> combined == images
    ensures images == [] ==> combined == []
  {
    var k := pagesPerFlipbookPage;
    if |images| == 0 {
      DivUnique(k - 1, k, 0, k - 1);
      return [];
    }
    if k == 1 {
      return images;
    }
    combined := [];
    var i := 0;
    while i < |images|
      invariant i == |combined| * k
      invariant i - k < |images|
      invariant forall j :: 0 <= j < |combined| ==> j * k < |images| && combined[j] == images[j * k]
      decreases |images| - i
    {
      var batch := images[i..Min(i + k, |images|)];
      if |batch| > 0 {
        combined := combined + [batch[0]];
      }
      assert (|combined| - 1) * k == i;
      i := i + k;
    }
    DivUnique(|images| + k - 1, k, |combined|, |images| + k - 1 - |combined| * k);
  }

  const ImageQuery := "?w=600&fit=crop&auto=format&q=80"

  /** The six Unsplash book photographs `getDefaultPageImages` cycles through. */
  const DefaultImages := [
    "https://images.unsplash.com/photo-1532012197267-da84d127e765",
    "https://images.unsplash.com/photo-1507842217343-583bb7270b66",
    "https://images.unsplash.com/photo-1533669955142-6a73332af4db",
    "https://images.unsplash.com/photo-1544947950-fa07a98d237f",
    "https://images.unsplash.com/photo-1519682337058-a94d519337bc",
    "https://images.unsplash.com/photo-1526243741027-444d633d7365"
  ]

  /** `getDefaultPageImages`: one sized image address per page, cycling through the six photos. */
  function GetDefaultPageImages(pageCount: nat): (r: seq<string>)
    ensures |r| == pageCount
    ensures forall i :: 0 <= i < pageCount ==>
      StartsWith(r[i], "https://images.unsplash.com/") && EndsWith(r[i], ImageQuery)
  {
    var r := seq(pageCount, i requires 0 <= i < pageCount => DefaultImages[i % |DefaultImages|] + ImageQuery);
    assert forall i :: 0 <= i < pageCount ==>
      StartsWith(r[i], "https://images.unsplash.com/") && EndsWith(r[i], ImageQuery) by {
      forall i | 0 <= i < pageCount
        ensures StartsWith(r[i], "https://images.unsplash.com/") && EndsWith(r[i], ImageQuery)
      {
        var photo := DefaultImages[i % |DefaultImages|];
        DefaultImagesAreUnsplash(i % |DefaultImages|);
        AppendKeepsPrefix(photo, ImageQuery, "https://images.unsplash.com/");
        assert (photo + ImageQuery)[|photo|..] == ImageQuery;
      }
    }
    r
  }

  lemma DefaultImagesAreUnsplash(j: int)
    requires 0 <= j < |DefaultImages|
    ensures StartsWith(DefaultImages[j], "https://images.unsplash.com/")
  {
    var p := "https://images.unsplash.com/";
    assert DefaultImages[0][..|p|] == p;
    assert DefaultImages[1][..|p|] == p;
    assert DefaultImages[2][..|p|] == p;
    assert DefaultImages[3][..|p|] == p;
    assert DefaultImages[4][..|p|] == p;
    assert DefaultImages[5][..|p|] == p;
  }

  /** The placeholder list repeats every six pages. */
  lemma DefaultImagesRepeatEverySix(pageCount: nat, i: int)
    requires 0 <= i && i + 6 < pageCount
    ensures GetDefaultPageImages(pageCount)[i] == GetDefaultPageImages(pageCount)[i + 6]
  {
    ModAddModulus(i, 6);
  }

  /** Asking for more pages extends the list without changing the pages already there. */
  lemma DefaultImagesPrefixStable(m: nat, n: nat)
    requires m <= n
    ensures GetDefaultPageImages(m) == GetDefaultPageImages(n)[..m]
  {
  }

  /** The first six placeholders are six different photographs. */
  lemma FirstSixDefaultImagesDiffer(pageCount: nat, i: int, j: int)
    requires 0 <= i < j < 6 && j < pageCount
    ensures GetDefaultPageImages(pageCount)[i] != GetDefaultPageImages(pageCount)[j]
  {
    var r := GetDefaultPageImages(pageCount);
    assert r[i][43] != r[j][43] || r[i][44] != r[j][44] || r[i][45] != r[j][45] || r[i][46] != r[j][46];
  }
}

/**
 * The catalog of audio pairs: the preview links as written in webapp.py
 * (`audio_pairs_preview`) and the direct-download pairs derived from them
 * (`audio_pairs`).
 */
module Catalog {
  import opened DriveLink

  /** One item of the test: the two recordings to compare. */
  type Pair = (string, string)

  /**
   * `audio_pairs_preview`: the public preview links, one pair per item. Each is
   * `https://drive.google.com/file/d/<id>/preview`, written here as its three
   * parts so that the proofs need not take the literal apart.
   */
  const PreviewPairs: seq<Pair> := [
    ( FilePrefix + "1NnrKT5cw5p29DzVswZECBA1dJ1tdIuTI" + "/preview",
      FilePrefix + "1-sALpb42wFD5ce8ne1d3gO-IC-djOjgv" + "/preview" )
  ]

  /**
   * The list comprehension that builds `audio_pairs`: same length and order as
   * `previews`, each link of each pair converted on its own.
   */
  function ConvertPairs(previews: seq<Pair>): (pairs: seq<Pair>)
    ensures |pairs| == |previews|
    ensures forall i :: 0 <= i < |previews| ==>
      pairs[i] == (PreviewToDirect(previews[i].0), PreviewToDirect(previews[i].1))
  {
    if previews == [] then []
    else [(PreviewToDirect(previews[0].0), PreviewToDirect(previews[0].1))] + ConvertPairs(previews[1..])
  }

  /** `audio_pairs`: the links the survey plays and records. */
  const AudioPairs: seq<Pair> := ConvertPairs(PreviewPairs)

  /** Converting an already converted catalog changes nothing. */
  lemma ConvertPairsIdempotent(previews: seq<Pair>)
    ensures ConvertPairs(ConvertPairs(previews)) == ConvertPairs(previews)
  {
    var once := ConvertPairs(previews);
    forall i | 0 <= i < |once|
      ensures ConvertPairs(once)[i] == once[i]
    {
      Idempotent(previews[i].0);
      Idempotent(previews[i].1);
    }
  }

  /** A string made only of id characters. */
  predicate IsId(id: string) {
    |id| > 0 && forall k :: 0 <= k < |id| ==> IsIdChar(id[k])
  }

  /** The first recording's link converts to its file id, cut before `/preview`. */
  lemma FirstLinkConverts()
    ensures PreviewToDirect(PreviewPairs[0].0) == DirectPrefix + "1NnrKT5cw5p29DzVswZECBA1dJ1tdIuTI"
  {
    var id := "1NnrKT5cw5p29DzVswZECBA1dJ1tdIuTI";
    assert IsId(id) by {
      assert forall k :: 0 <= k < |id| ==> IsIdChar(id[k]);
    }
    PreviewLinkId(id, "/preview");
  }

  /** The second recording's link converts to its file id; `-` belongs to the id. */
  lemma SecondLinkConverts()
    ensures PreviewToDirect(PreviewPairs[0].1) == DirectPrefix + "1-sALpb42wFD5ce8ne1d3gO-IC-djOjgv"
  {
    var id := "1-sALpb42wFD5ce8ne1d3gO-IC-djOjgv";
    assert IsId(id) by {
      assert forall k :: 0 <= k < |id| ==> IsIdChar(id[k]);
    }
    PreviewLinkId(id, "/preview");
  }

  /** `audio_pairs` as the survey sees it. */
  lemma AudioPairsValue()
    ensures AudioPairs == [
      ( DirectPrefix + "1NnrKT5cw5p29DzVswZECBA1dJ1tdIuTI",
        DirectPrefix + "1-sALpb42wFD5ce8ne1d3gO-IC-djOjgv" ) ]
  {
    FirstLinkConverts();
    SecondLinkConverts();
  }
}

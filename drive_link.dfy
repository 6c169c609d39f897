/**
 * Conversion of a Google Drive preview link into a direct-download link
 * (`gdrive_preview_to_direct` in webapp.py). The source searches the link with
 * the regular expression `/d/([a-zA-Z0-9_-]+)`; this module spells out what
 * `re.search` does with that one pattern: the match starts at the leftmost
 * position where `/d/` is followed by at least one id character, and the
 * group is the longest run of id characters from there.
 */
module DriveLink {
  import opened Optional

  /** Scheme and host of every Drive link. */
  const DriveHost: string := "https://drive.google.com"

  /** Everything a converted link starts with: `https://drive.google.com/uc?export=download&id=`. */
  const DirectPrefix: string := DriveHost + "/uc?export=download&id="

  /** How a preview link starts, up to its file id: `https://drive.google.com/file/d/`. */
  const FilePrefix: string := DriveHost + "/file/d/"

  /** The character class `[a-zA-Z0-9_-]`. */
  predicate IsIdChar(c: char) {
    ('a' <= c <= 'z') || ('A' <= c <= 'Z') || ('0' <= c <= '9') || c == '_' || c == '-'
  }

  /** The pattern matches at `p`: `/d/` followed by at least one id character. */
  predicate MatchesAt(s: string, p: nat) {
    p + 3 < |s| && s[p] == '/' && s[p + 1] == 'd' && s[p + 2] == '/' && IsIdChar(s[p + 3])
  }

  /** `re.search` finds the pattern somewhere in `s`. */
  predicate HasMatch(s: string) {
    exists p: nat | p < |s| :: MatchesAt(s, p)
  }

  /** The greedy `+`: the length of the longest run of id characters starting at `j`. */
  function RunLength(s: string, j: nat): (n: nat)
    requires j <= |s|
    decreases |s| - j
    ensures j + n <= |s|
    ensures forall k :: j <= k < j + n ==> IsIdChar(s[k])
    ensures j + n == |s| || !IsIdChar(s[j + n])
  {
    if j < |s| && IsIdChar(s[j]) then 1 + RunLength(s, j + 1) else 0
  }

  /** The leftmost position at or after `from` where the pattern matches, if any. */
  function FindFrom(s: string, from: nat): (r: Option<nat>)
    decreases |s| - from
    ensures r.Some? ==> from <= r.value && MatchesAt(s, r.value)
    ensures forall q: nat :: from <= q && (r.None? || q < r.value) ==> !MatchesAt(s, q)
  {
    if |s| <= from + 3 then None
    else if MatchesAt(s, from) then Some(from)
    else FindFrom(s, from + 1)
  }

  /**
   * `match.group(1)`: the captured file id, present exactly when the search
   * succeeds, and then a non-empty run of id characters taken from `url`.
   */
  function ExtractId(url: string): (id: Option<string>)
    ensures id.Some? <==> HasMatch(url)
    ensures id.Some? ==> |id.value| > 0 && forall k :: 0 <= k < |id.value| ==> IsIdChar(id.value[k])
  {
    match FindFrom(url, 0)
    case None => None
    case Some(p) => Some(url[p + 3 .. p + 3 + RunLength(url, p + 3)])
  }

  /** `gdrive_preview_to_direct`: the direct-download link, or `url` unchanged when nothing matches. */
  function PreviewToDirect(url: string): (r: string)
    ensures !HasMatch(url) ==> r == url
    ensures HasMatch(url) ==> |DirectPrefix| < |r| && r[..|DirectPrefix|] == DirectPrefix
  {
    match ExtractId(url)
    case None => url
    case Some(id) => DirectPrefix + id
  }

  /**
   * On a match, the result is the prefix followed by the leftmost, maximal,
   * non-empty run of id characters after `/d/`: `p` is the leftmost match and
   * `e` ends the run.
   */
  lemma LeftmostMaximalId(url: string, p: nat, e: nat)
    requires MatchesAt(url, p)
    requires forall q: nat :: q < p ==> !MatchesAt(url, q)
    requires p + 3 < e <= |url|
    requires forall k :: p + 3 <= k < e ==> IsIdChar(url[k])
    requires e == |url| || !IsIdChar(url[e])
    ensures PreviewToDirect(url) == DirectPrefix + url[p + 3 .. e]
  {
  }

  /** A converted link holds no `/d/` followed by an id character. */
  lemma DirectHasNoMatch(id: string)
    requires forall k :: 0 <= k < |id| ==> IsIdChar(id[k])
    ensures !HasMatch(DirectPrefix + id)
  {
  }

  /** A link is left unchanged exactly when the pattern is not found in it. */
  lemma UnchangedIffNoMatch(url: string)
    ensures PreviewToDirect(url) == url <==> !HasMatch(url)
  {
    match ExtractId(url)
    case None =>
    case Some(id) =>
      DirectHasNoMatch(id);
  }

  /** Converting a converted link changes nothing. */
  lemma Idempotent(url: string)
    ensures PreviewToDirect(PreviewToDirect(url)) == PreviewToDirect(url)
  {
    match ExtractId(url)
    case None =>
    case Some(id) =>
      DirectHasNoMatch(id);
  }

  /** The slashes of `FilePrefix` before its final `/d/`. */
  lemma FilePrefixSlashes(i: nat)
    requires i < 29
    ensures FilePrefix[i] == '/' <==> i == 6 || i == 7 || i == 24
  {
  }

  /**
   * A preview link `https://drive.google.com/file/d/<id><rest>` converts to the
   * prefix followed by `<id>`, provided `<rest>` does not continue the id
   * (`/preview` in the catalog's links).
   */
  lemma PreviewLinkId(id: string, rest: string)
    requires |id| > 0 && forall k :: 0 <= k < |id| ==> IsIdChar(id[k])
    requires rest == [] || !IsIdChar(rest[0])
    ensures PreviewToDirect(FilePrefix + id + rest) == DirectPrefix + id
  {
    var url := FilePrefix + id + rest;
    var e := |FilePrefix| + |id|;
    forall q: nat | q < 29 ensures !MatchesAt(url, q) {
      FilePrefixSlashes(q);
      assert url[q] == FilePrefix[q];
      if q < 28 {
        FilePrefixSlashes(q + 1);
        assert url[q + 1] == FilePrefix[q + 1];
      }
      if q < 27 {
        FilePrefixSlashes(q + 2);
        assert url[q + 2] == FilePrefix[q + 2];
      }
    }
    assert url[29 .. 32] == FilePrefix[29 ..];
    forall k | 32 <= k < e ensures IsIdChar(url[k]) {
      assert url[k] == id[k - 32];
    }
    if e < |url| {
      assert url[e] == rest[0];
    }
    assert url[32 .. e] == id;
    LeftmostMaximalId(url, 29, e);
  }
}

/**
 * `extractSheetId`: the spreadsheet id is the run of id characters that
 * follows the first `/spreadsheets/d/` which is followed by at least one of
 * them, as the regular expression `/\/spreadsheets\/d\/([a-zA-Z0-9-_]+)/`
 * finds it (leftmost match, greedy `+`).
 */
module SheetUrl {
  import opened Wrappers

  const SHEET_PATH: string := "/spreadsheets/d/"

  const INVALID_URL: string := "Invalid Google Sheets URL."

  /** The character class `[a-zA-Z0-9-_]`. */
  predicate IdChar(c: char)
  {
    ('a' <= c <= 'z') || ('A' <= c <= 'Z') || ('0' <= c <= '9') || c == '-' || c == '_'
  }

  /** `url` holds the path at position `p`. */
  predicate PathAt(url: string, p: nat)
  {
    p + |SHEET_PATH| <= |url| && url[p..p + |SHEET_PATH|] == SHEET_PATH
  }

  /** The pattern matches at position `p`: the path, then at least one id character. */
  predicate MatchAt(url: string, p: nat)
  {
    PathAt(url, p) && p + |SHEET_PATH| < |url| && IdChar(url[p + |SHEET_PATH|])
  }

  /** The leftmost match at or after `p`. */
  function FindMatch(url: string, p: nat): (r: Option<nat>)
    ensures r.Some? ==> p <= r.value && MatchAt(url, r.value)
    ensures r.Some? ==> forall q :: p <= q < r.value ==> !MatchAt(url, q)
    ensures r.None? ==> forall q :: p <= q ==> !MatchAt(url, q)
    decreases |url| - p
  {
    if p + |SHEET_PATH| >= |url| then None
    else if MatchAt(url, p) then Some(p)
    else FindMatch(url, p + 1)
  }

  /** The end of the run of id characters starting at `i` (the greedy `+`). */
  function IdRunEnd(s: string, i: nat): (j: nat)
    requires i <= |s|
    ensures i <= j <= |s|
    ensures forall k :: i <= k < j ==> IdChar(s[k])
    ensures j == |s| || !IdChar(s[j])
    decreases |s| - i
  {
    if i < |s| && IdChar(s[i]) then IdRunEnd(s, i + 1) else i
  }

  /** `extractSheetId(url)`; the thrown error becomes `Failure`. */
  function ExtractSheetId(url: string): (r: Result<string>)
    ensures r.Failure? ==> r.error == INVALID_URL
  {
    match FindMatch(url, 0)
    case None => Failure(INVALID_URL)
    case Some(p) =>
      var a := p + |SHEET_PATH|;
      Success(url[a..IdRunEnd(url, a)])
  }

  /** The id found at match position `p`: the maximal run of id characters after the path. */
  predicate CapturedAt(url: string, p: nat, id: string)
  {
    var a := p + |SHEET_PATH|;
    && a + |id| <= |url|
    && url[a..a + |id|] == id
    && (a + |id| == |url| || !IdChar(url[a + |id|]))
  }

  /**
   * The URL is rejected exactly when the pattern matches nowhere; otherwise
   * the id is a non-empty run of id characters captured at the leftmost match.
   */
  lemma ExtractSheetIdCorrect(url: string)
    ensures ExtractSheetId(url).Failure? <==> forall q :: !MatchAt(url, q)
    ensures ExtractSheetId(url).Success? ==>
      var id := ExtractSheetId(url).value;
      && |id| >= 1
      && (forall k :: 0 <= k < |id| ==> IdChar(id[k]))
      && exists p :: MatchAt(url, p) && CapturedAt(url, p, id) && forall q :: q < p ==> !MatchAt(url, q)
  {
    var m := FindMatch(url, 0);
    if m.Some? {
      var p := m.value;
      var a := p + |SHEET_PATH|;
      var id := url[a..IdRunEnd(url, a)];
      assert CapturedAt(url, p, id);
      assert |id| >= 1;
    }
  }

  /** Once `p` is the first match from `lo` on, the search from `lo` finds it. */
  lemma {:induction false} FindMatchFirst(url: string, lo: nat, p: nat)
    requires lo <= p && MatchAt(url, p)
    requires forall q :: lo <= q < p ==> !MatchAt(url, q)
    ensures FindMatch(url, lo) == Some(p)
    decreases p - lo
  {
    if lo < p {
      FindMatchFirst(url, lo + 1, p);
    }
  }

  /** The id run starting at `i` is exactly `id` when `id` is followed by a non-id character or the end. */
  lemma {:induction false} IdRunEndOf(s: string, i: nat, id: string)
    requires i + |id| <= |s| && s[i..i + |id|] == id
    requires forall k :: 0 <= k < |id| ==> IdChar(id[k])
    requires i + |id| == |s| || !IdChar(s[i + |id|])
    ensures IdRunEnd(s, i) == i + |id|
    decreases |id|
  {
    if id != [] {
      assert s[i] == id[0];
      assert s[i + 1..i + 1 + |id[1..]|] == id[1..];
      IdRunEndOf(s, i + 1, id[1..]);
    }
  }

  /**
   * Round trip: an id placed after the path, with no match earlier in the
   * URL and a non-id character (or nothing) after it, is extracted exactly.
   */
  lemma ExtractPlacedId(pre: string, id: string, post: string)
    requires |id| >= 1 && forall k :: 0 <= k < |id| ==> IdChar(id[k])
    requires post == [] || !IdChar(post[0])
    requires forall q: nat :: q < |pre| ==> !MatchAt(pre + SHEET_PATH + id + post, q)
    ensures ExtractSheetId(pre + SHEET_PATH + id + post) == Success(id)
  {
    var url := pre + SHEET_PATH + id + post;
    var p := |pre|;
    var a := p + |SHEET_PATH|;
    assert url[p..a] == SHEET_PATH;
    assert url[a..a + |id|] == id;
    assert url[a] == id[0];
    assert MatchAt(url, p);
    FindMatchFirst(url, 0, p);
    assert a + |id| < |url| ==> url[a + |id|] == post[0];
    IdRunEndOf(url, a, id);
  }

  /** No match can start inside a prefix that has no `/`, since every match starts with one. */
  lemma NoSlashNoMatch(pre: string, rest: string)
    requires '/' !in pre
    ensures forall q: nat :: q < |pre| ==> !MatchAt(pre + rest, q)
  {
    forall q: nat | q < |pre|
      ensures !MatchAt(pre + rest, q)
    {
      var url := pre + rest;
      assert url[q] == pre[q] && pre[q] != '/';
      assert SHEET_PATH[0] == '/';
      if q + |SHEET_PATH| <= |url| {
        assert url[q..q + |SHEET_PATH|][0] == url[q];
      }
    }
  }

  /** An id after a slash-free prefix is extracted, whatever follows it after a non-id character. */
  lemma ExtractAfterHost(pre: string, id: string, post: string)
    requires '/' !in pre
    requires |id| >= 1 && forall k :: 0 <= k < |id| ==> IdChar(id[k])
    requires post == [] || !IdChar(post[0])
    ensures ExtractSheetId(pre + SHEET_PATH + id + post) == Success(id)
  {
    assert pre + SHEET_PATH + id + post == pre + (SHEET_PATH + id + post);
    NoSlashNoMatch(pre, SHEET_PATH + id + post);
    ExtractPlacedId(pre, id, post);
  }

  /** A URL without the path is rejected with the source's message. */
  lemma RejectsWithoutPath(url: string)
    requires forall p: nat :: !PathAt(url, p)
    ensures ExtractSheetId(url) == Failure(INVALID_URL)
  {
    assert forall q: nat :: !MatchAt(url, q);
  }
}

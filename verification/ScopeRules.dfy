/** Scopes, legs and anchors told in the characters of the paths. */
module ScopeRules {
  import opened Prelude
  import opened Scopes

  lemma LastIs(s: string, c: char, k: int)
    requires -1 <= k < |s| && (k >= 0 ==> s[k] == c) && forall i :: k < i < |s| ==> s[i] != c
    ensures LastOf(s, c) == k
  {
  }

  /** A path is split at every slash. */
  lemma SegmentsSplit(front: string, last: string)
    requires NoChar(last, '/')
    ensures Segments(last) == [last] && Segments(front + "/" + last) == Segments(front) + [last]
  {
    LastIs(last, '/', -1);
    var s := front + "/" + last;
    assert forall i :: |front| < i < |s| ==> s[i] == last[i - |front| - 1];
    LastIs(s, '/', |front|);
    assert s[..|front|] == front && s[|front| + 1..] == last;
  }

  /** The segment stands between slashes, or at an end. */
  predicate SegmentAt(s: string, i: nat, segment: string) {
    && i + |segment| <= |s| && s[i..i + |segment|] == segment
    && (i == 0 || s[i - 1] == '/') && (i + |segment| == |s| || s[i + |segment|] == '/')
  }

  predicate Occurs(s: string, segment: string) {
    exists i :: 0 <= i <= |s| && SegmentAt(s, i, segment)
  }

  lemma {:induction false} SegmentsExactly(s: string, segment: string)
    requires NoChar(segment, '/')
    ensures segment in Segments(s) <==> Occurs(s, segment)
    decreases |s|
  {
    var k := LastOf(s, '/');
    if k < 0 {
      OneSegment(s, segment);
    } else {
      SegmentsExactly(s[..k], segment);
      LastSegment(s, segment, k);
    }
  }

  lemma OneSegment(s: string, segment: string)
    requires NoChar(segment, '/') && NoChar(s, '/')
    ensures segment in [s] <==> Occurs(s, segment)
  {
    if segment == s { assert SegmentAt(s, 0, s); }
    if i :| 0 <= i <= |s| && SegmentAt(s, i, segment) { assert i == 0 && |segment| == |s|; }
  }

  lemma LastSegment(s: string, segment: string, k: nat)
    requires NoChar(segment, '/') && k == LastOf(s, '/')
    ensures Occurs(s, segment) <==> Occurs(s[..k], segment) || segment == s[k + 1..]
  {
    if i :| 0 <= i <= |s| && SegmentAt(s, i, segment) { LastOrBefore(s, segment, k, i); }
    if i :| 0 <= i <= |s[..k]| && SegmentAt(s[..k], i, segment) { StaysAt(s, segment, k, i); }
    if segment == s[k + 1..] { assert SegmentAt(s, k + 1, segment); }
  }

  lemma StaysAt(s: string, segment: string, k: nat, i: nat)
    requires k == LastOf(s, '/') && SegmentAt(s[..k], i, segment)
    ensures SegmentAt(s, i, segment)
  {
    var t := s[..k];
    assert forall j :: i <= j < i + |segment| ==> t[j] == s[j];
    assert t[i..i + |segment|] == s[i..i + |segment|];
  }

  lemma LastOrBefore(s: string, segment: string, k: nat, i: nat)
    requires NoChar(segment, '/') && k == LastOf(s, '/') && SegmentAt(s, i, segment)
    ensures SegmentAt(s[..k], i, segment) || segment == s[k + 1..]
  {
    forall j | i <= j < i + |segment| ensures s[j] != '/' { assert s[j] == s[i..i + |segment|][j - i]; }
    if i <= k {
      assert s[..k][i..i + |segment|] == s[i..i + |segment|];
    } else {
      assert s[i - 1] == '/';
      assert i == k + 1;
    }
  }

  /** A scope is safe if it is relative and no segment goes up. */
  lemma SafeExactly(scope: string)
    ensures Safe(scope) <==> |scope| > 0 && scope[0] != '/' && !Occurs(scope, "..")
  {
    SegmentsExactly(scope, "..");
  }

  /* ---- Legs ---- */

  /** The leg of a tree is the tree beside it. */
  lemma TreeLeg(stem: string, suffix: string)
    requires NoChar(stem, '*')
    ensures ParallelPath(stem + "/**", suffix) == stem + "-" + suffix + "/**"
  {
    TreeStem(stem);
  }

  /** It ends in a tree mark, with no wildcard before it. */
  predicate PlainTree(path: string) {
    |path| >= 3 && path[|path| - 3..] == "/**" && NoChar(path[..|path| - 3], '*')
  }

  predicate Directory(head: string) {
    head == "" || head[|head| - 1] == '/'
  }

  lemma NameAt(head: string, tail: string)
    requires Directory(head) && NoChar(tail, '/')
    ensures LastOf(head + tail, '/') == |head| - 1 && (head + tail)[|head|..] == tail && (head + tail)[..|head|] == head
  {
    var path := head + tail;
    assert forall i :: |head| <= i < |path| ==> path[i] == tail[i - |head|];
    LastIs(path, '/', |head| - 1);
  }

  lemma DotAt(name: string, ext: string)
    requires NoChar(ext, '.')
    ensures var tail := name + "." + ext; LastOf(tail, '.') == |name| && tail[..|name|] == name && tail[|name| + 1..] == ext
  {
    var tail := name + "." + ext;
    assert forall i :: |name| < i < |tail| ==> tail[i] == ext[i - |name| - 1];
    LastIs(tail, '.', |name|);
  }

  /** The leg of a file has the suffix in front of its last extension. */
  lemma FileLeg(head: string, name: string, ext: string, suffix: string)
    requires Directory(head) && NoChar(name + "." + ext, '/') && NoChar(ext, '.') && !PlainTree(head + (name + "." + ext))
    ensures ParallelPath(head + (name + "." + ext), suffix) == head + name + "." + suffix + "." + ext
  {
    NameAt(head, name + "." + ext);
    DotAt(name, ext);
    PathWithDot(head + (name + "." + ext), head, name + "." + ext, name, ext, suffix);
  }

  lemma PathWithDot(path: string, head: string, tail: string, name: string, ext: string, suffix: string)
    requires !PlainTree(path) && LastOf(path, '/') == |head| - 1 && path[|head|..] == tail && path[..|head|] == head
    requires LastOf(tail, '.') == |name| && tail[..|name|] == name && tail[|name| + 1..] == ext
    ensures ParallelPath(path, suffix) == head + name + "." + suffix + "." + ext
  {
  }

  /** Without an extension the suffix comes last. */
  lemma NameLeg(head: string, name: string, suffix: string)
    requires Directory(head) && NoChar(name, '/') && NoChar(name, '.') && !PlainTree(head + name)
    ensures ParallelPath(head + name, suffix) == head + name + "-" + suffix
  {
    NameAt(head, name);
    LastIs(name, '.', -1);
  }

  /* ---- Anchors ---- */

  /** A segment stands at a place of an anchor: the word itself, or any segment at a placeholder; at
      `<component>` only one that does not start with an underscore. */
  predicate StandsAt(segment: string, place: string) {
    if IsWildcard(place) then place != "<component>" || segment == "" || segment[0] != '_' else segment == place
  }

  lemma ListMatches(segments: seq<string>, pattern: seq<string>, rest: seq<string>)
    ensures MatchSegments(segments, pattern) == Some(rest) <==>
            && |pattern| + |rest| == |segments| && segments[|pattern|..] == rest
            && forall i :: 0 <= i < |pattern| ==> StandsAt(segments[i], pattern[i])
  {
    forall a, b ensures SegmentMatches(a, b) <==> StandsAt(a, b) {}
  }

  lemma MatchesExactly(root: string, anchor: string, rest: seq<string>)
    ensures AnchorMatch(root, anchor) == Some(rest) <==>
            && |Segments(anchor)| + |rest| == |Segments(root)| && Segments(root)[|Segments(anchor)|..] == rest
            && forall i :: 0 <= i < |Segments(anchor)| ==> StandsAt(Segments(root)[i], Segments(anchor)[i])
  {
    ListMatches(Segments(root), Segments(anchor), rest);
  }

  /** A placeholder is a word of small letters in angle brackets. */
  lemma PlaceholderIs(word: string)
    ensures IsWildcard("<" + word + ">") <==> |word| > 0 && forall i :: 0 <= i < |word| ==> 'a' <= word[i] <= 'z'
  {
    var segment := "<" + word + ">";
    assert segment[0] == '<' && segment[|segment| - 1] == '>' && |segment| == |word| + 2;
    forall i | 0 < i < |segment| - 1 ensures segment[i] == word[i - 1] {}
    SameLetters(segment, word);
    assert IsWildcard(segment) <==> Bracketed(segment);
  }

  lemma SameLetters(segment: string, word: string)
    requires |segment| == |word| + 2 && forall i :: 0 < i < |segment| - 1 ==> segment[i] == word[i - 1]
    ensures (forall i :: 0 < i < |segment| - 1 ==> Lower(segment[i])) <==> forall i :: 0 <= i < |word| ==> 'a' <= word[i] <= 'z'
  {
    forall i | 0 <= i < |word| ensures word[i] == segment[i + 1] {}
  }
}

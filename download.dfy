/**
 * The preparation step of `download_course`: every text file of the course
 * directory that holds a base64 blob between two markers has the blob
 * replaced by its decoded text before the course is packaged.
 */
module CourseDownload {
  import opened Wrappers

  const Marker: string := "@@@@@@@@@@"
  /** The one file name the walk leaves alone. */
  const SkippedFile: string := "table_inspect.html"

  // ----- str.find, str.count and str.split for a non-empty separator -----

  /** The start of the first occurrence of `sep` in `s`, if any. */
  function Find(s: string, sep: string): (r: Option<nat>)
    requires sep != []
    ensures r.Some? ==> r.value + |sep| <= |s| && s[r.value..r.value + |sep|] == sep
    decreases |s|
  {
    if |s| < |sep| then None
    else if s[..|sep|] == sep then Some(0)
    else match Find(s[1..], sep)
      case None => None
      case Some(i) =>
        assert s[1..][i..i + |sep|] == s[i + 1..i + 1 + |sep|];
        Some(i + 1)
  }

  /** `sep in s`. */
  predicate Contains(s: string, sep: string)
    requires sep != []
  {
    Find(s, sep).Some?
  }

  /** `s.count(sep)`: non-overlapping occurrences, from the left. */
  function Count(s: string, sep: string): nat
    requires sep != []
    decreases |s|
  {
    match Find(s, sep)
    case None => 0
    case Some(i) => 1 + Count(s[i + |sep|..], sep)
  }

  /** `s.split(sep)`. */
  function Split(s: string, sep: string): (r: seq<string>)
    requires sep != []
    ensures |r| >= 1
    decreases |s|
  {
    match Find(s, sep)
    case None => [s]
    case Some(i) => [s[..i]] + Split(s[i + |sep|..], sep)
  }

  /** `sep.join(parts)`. */
  function Join(parts: seq<string>, sep: string): string
    requires parts != []
  {
    if |parts| == 1 then parts[0] else parts[0] + sep + Join(parts[1..], sep)
  }

  /** `sep` occurs in `s` starting at `k`. */
  predicate OccursAt(s: string, sep: string, k: int) {
    0 <= k && k + |sep| <= |s| && s[k..k + |sep|] == sep
  }

  /** `Find` reports the first occurrence, and reports none only when there is none. */
  lemma {:induction false} FindIsFirst(s: string, sep: string)
    requires sep != []
    ensures Find(s, sep).Some? ==> OccursAt(s, sep, Find(s, sep).value)
    ensures Find(s, sep).Some? ==> forall k :: 0 <= k < Find(s, sep).value ==> !OccursAt(s, sep, k)
    ensures Find(s, sep).None? <==> forall k :: !OccursAt(s, sep, k)
    decreases |s|
  {
    if |s| < |sep| {
    } else if s[..|sep|] == sep {
      assert OccursAt(s, sep, 0);
    } else {
      FindIsFirst(s[1..], sep);
      assert !OccursAt(s, sep, 0);
      forall k | 1 <= k
        ensures OccursAt(s, sep, k) <==> OccursAt(s[1..], sep, k - 1)
      {
        if k + |sep| <= |s| {
          assert s[1..][k - 1..k - 1 + |sep|] == s[k..k + |sep|];
        }
      }
      if Find(s[1..], sep).Some? {
        var i := Find(s[1..], sep).value;
        assert Find(s, sep) == Some(i + 1);
        assert OccursAt(s, sep, i + 1);
      } else {
        assert Find(s, sep) == None;
        forall k
          ensures !OccursAt(s, sep, k)
        {
          if k >= 1 {
            assert !OccursAt(s[1..], sep, k - 1);
          }
        }
      }
    }
  }

  /** There is always one more part than there are separators: `len(parts) >= 3` exactly when `count >= 2`. */
  lemma {:induction false} SplitCount(s: string, sep: string)
    requires sep != []
    ensures |Split(s, sep)| == Count(s, sep) + 1
    decreases |s|
  {
    match Find(s, sep)
    case None =>
    case Some(i) => SplitCount(s[i + |sep|..], sep);
  }

  /** Joining the parts with the separator gives back the text. */
  lemma {:induction false} SplitJoin(s: string, sep: string)
    requires sep != []
    ensures Join(Split(s, sep), sep) == s
    decreases |s|
  {
    match Find(s, sep)
    case None =>
    case Some(i) =>
      var rest := s[i + |sep|..];
      SplitJoin(rest, sep);
      JoinCons(s[..i], Split(rest, sep), sep);
      Recompose(s, i, i + |sep|);
  }

  lemma JoinCons(head: string, tail: seq<string>, sep: string)
    requires tail != []
    ensures Join([head] + tail, sep) == head + sep + Join(tail, sep)
  {
    assert ([head] + tail)[1..] == tail;
  }

  lemma Recompose(s: string, i: nat, j: nat)
    requires i <= j <= |s|
    ensures s[..i] + s[i..j] + s[j..] == s
  {
  }

  /** A prefix that ends before the first occurrence holds none. */
  lemma PrefixBeforeFirst(s: string, sep: string)
    requires sep != [] && Find(s, sep).Some?
    ensures !Contains(s[..Find(s, sep).value], sep)
  {
    var i := Find(s, sep).value;
    var head := s[..i];
    FindIsFirst(s, sep);
    forall k
      ensures !OccursAt(head, sep, k)
    {
      if 0 <= k && k + |sep| <= |head| {
        assert head[k..k + |sep|] == s[k..k + |sep|];
        assert !OccursAt(s, sep, k);
      }
    }
    FindIsFirst(head, sep);
  }

  /** No part holds the separator. */
  lemma {:induction false} SplitPartsFree(s: string, sep: string)
    requires sep != []
    ensures forall p :: p in Split(s, sep) ==> !Contains(p, sep)
    decreases |s|
  {
    match Find(s, sep)
    case None =>
    case Some(i) =>
      var rest := s[i + |sep|..];
      PrefixBeforeFirst(s, sep);
      SplitPartsFree(rest, sep);
      var head := s[..i];
      assert Split(s, sep) == [head] + Split(rest, sep);
      forall p | p in Split(s, sep)
        ensures !Contains(p, sep)
      {
        if p != head {
          assert p in Split(rest, sep);
        }
      }
  }

  /** Python's `"@" * 10 in s` is the same test as `s.count("@" * 10) >= 1`. */
  lemma ContainsIffCounted(s: string)
    ensures Contains(s, Marker) <==> Count(s, Marker) >= 1
  {
  }

  // ----- the splice -----

  /**
   * The new content of a file, or `None` when the file is not rewritten:
   * with at least two markers, the text before the first, the decoded blob
   * between the first two and the text between the second and a third;
   * anything after a third marker is dropped. `decode` stands for base64
   * decoding followed by UTF-8 decoding, and fails on malformed input.
   */
  function Splice(content: string, decode: string -> Option<string>): Option<string> {
    if Contains(content, Marker) && Count(content, Marker) >= 2 then
      var parts := Split(content, Marker);
      if |parts| >= 3 then
        match decode(parts[1])
        case None => None
        case Some(text) => Some(parts[0] + text + parts[2])
      else None
    else None
  }

  /**
   * A file is rewritten exactly when it holds two markers and the blob
   * between the first two decodes; the rewrite keeps the text around it.
   */
  lemma SpliceWhen(content: string, decode: string -> Option<string>)
    ensures |Split(content, Marker)| >= 3 <==> Count(content, Marker) >= 2
    ensures Splice(content, decode).Some? <==>
      |Split(content, Marker)| >= 3 && decode(Split(content, Marker)[1]).Some?
    ensures Splice(content, decode).Some? ==>
      var parts := Split(content, Marker);
      Splice(content, decode).value == parts[0] + decode(parts[1]).value + parts[2]
  {
    SplitCount(content, Marker);
  }

  predicate AtFree(s: string) {
    forall k :: 0 <= k < |s| ==> s[k] != '@'
  }

  lemma {:induction false} FindAfterAtFree(a: string, rest: string)
    requires AtFree(a) && |rest| >= |Marker| && rest[..|Marker|] == Marker
    ensures Find(a + rest, Marker) == Some(|a|)
    decreases |a|
  {
    var s := a + rest;
    if a == [] {
      assert s == rest;
    } else {
      assert s[..|Marker|][0] == a[0] != '@';
      assert s[..|Marker|] != Marker;
      assert s[1..] == a[1..] + rest;
      assert AtFree(a[1..]) by {
        forall k | 0 <= k < |a[1..]| ensures a[1..][k] != '@' {
          assert a[1..][k] == a[k + 1];
        }
      }
      FindAfterAtFree(a[1..], rest);
      assert Find(s[1..], Marker) == Some(|a| - 1);
    }
  }

  lemma AtFreeHasNoMarker(a: string)
    requires AtFree(a)
    ensures Find(a, Marker) == None
  {
    forall k
      ensures !OccursAt(a, Marker, k)
    {
      if 0 <= k && k + |Marker| <= |a| {
        assert a[k..k + |Marker|][0] == a[k] != '@' == Marker[0];
      }
    }
    FindIsFirst(a, Marker);
  }

  lemma SplitAtFree(a: string, rest: string)
    requires AtFree(a)
    ensures Split(a + Marker + rest, Marker) == [a] + Split(rest, Marker)
  {
    assert (a + Marker + rest) == a + (Marker + rest);
    assert (Marker + rest)[..|Marker|] == Marker;
    FindAfterAtFree(a, Marker + rest);
    assert (a + Marker + rest)[..|a|] == a;
    assert (a + Marker + rest)[|a| + |Marker|..] == rest;
  }

  /** A file `a@@@@@@@@@@b@@@@@@@@@@c` becomes `a`, the decoded `b`, then `c`. */
  lemma SpliceTwoMarkers(a: string, b: string, c: string, decode: string -> Option<string>)
    requires AtFree(a) && AtFree(b) && AtFree(c)
    ensures Splice(a + Marker + b + Marker + c, decode) ==
      if decode(b).Some? then Some(a + decode(b).value + c) else None
  {
    var s := a + Marker + b + Marker + c;
    assert s == a + Marker + (b + Marker + c);
    SplitAtFree(a, b + Marker + c);
    SplitAtFree(b, c);
    AtFreeHasNoMarker(c);
    SplitCount(s, Marker);
    assert Split(s, Marker) == [a, b, c];
  }

  lemma ReassociateThree(a: string, b: string, c: string, e: string)
    ensures a + Marker + b + Marker + c + Marker + e == a + Marker + (b + Marker + (c + Marker + e))
  {
  }

  /** With a third marker, whatever follows it is lost from the rewritten file. */
  lemma SpliceDropsAfterThirdMarker(a: string, b: string, c: string, e: string, decode: string -> Option<string>)
    requires AtFree(a) && AtFree(b) && AtFree(c)
    requires decode(b).Some?
    ensures Splice(a + Marker + b + Marker + c + Marker + e, decode) == Some(a + decode(b).value + c)
  {
    var s := a + Marker + b + Marker + c + Marker + e;
    var t3 := c + Marker + e;
    var t2 := b + Marker + t3;
    ReassociateThree(a, b, c, e);
    SplitAtFree(a, t2);
    SplitAtFree(b, t3);
    SplitAtFree(c, e);
    SplitCount(s, Marker);
    var parts := Split(s, Marker);
    assert parts == [a] + ([b] + ([c] + Split(e, Marker)));
    assert parts[0] == a && parts[1] == b && parts[2] == c;
  }

  // ----- the walk over the course files -----

  /**
   * A file met by the walk: its path, its name, its text (`None` when it
   * cannot be read as UTF-8 text), and whether writing it back succeeds.
   */
  datatype FileEntry = FileEntry(path: string, name: string, content: Option<string>, writable: bool)

  /** The rewrite the walk computes for one file, if any. */
  function RewriteOf(f: FileEntry, decode: string -> Option<string>): Option<string> {
    if f.name == SkippedFile || f.content.None? then None else Splice(f.content.value, decode)
  }

  /** The file is rewritten and the write succeeds, so it counts as changed. */
  predicate Written(f: FileEntry, decode: string -> Option<string>) {
    RewriteOf(f, decode).Some? && f.writable
  }

  /** The files the walk writes back, in walk order, with their new content. */
  function Rewrites(files: seq<FileEntry>, decode: string -> Option<string>): seq<(string, string)> {
    if files == [] then []
    else
      var f := files[|files| - 1];
      Rewrites(files[..|files| - 1], decode) + (if Written(f, decode) then [(f.path, RewriteOf(f, decode).value)] else [])
  }

  /** The walk positions of the files written back, in walk order. */
  function WrittenAt(files: seq<FileEntry>, decode: string -> Option<string>): seq<nat> {
    if files == [] then []
    else WrittenAt(files[..|files| - 1], decode) + (if Written(files[|files| - 1], decode) then [|files| - 1] else [])
  }

  /** The `k`-th write is the rewrite of the file at the `k`-th written position. */
  lemma {:induction false} WrittenAtShape(files: seq<FileEntry>, decode: string -> Option<string>)
    ensures |WrittenAt(files, decode)| == |Rewrites(files, decode)|
    ensures forall k :: 0 <= k < |WrittenAt(files, decode)| ==>
      var i := WrittenAt(files, decode)[k];
      i < |files| && Written(files[i], decode) && Rewrites(files, decode)[k] == (files[i].path, RewriteOf(files[i], decode).value)
  {
    if files != [] {
      var init := files[..|files| - 1];
      WrittenAtShape(init, decode);
      var idx, w := WrittenAt(files, decode), Rewrites(files, decode);
      forall k | 0 <= k < |idx|
        ensures idx[k] < |files| && Written(files[idx[k]], decode)
          && w[k] == (files[idx[k]].path, RewriteOf(files[idx[k]], decode).value)
      {
        if k < |WrittenAt(init, decode)| {
          assert idx[k] == WrittenAt(init, decode)[k] && w[k] == Rewrites(init, decode)[k];
          assert files[idx[k]] == init[idx[k]];
        }
      }
    }
  }

  lemma {:induction false} WrittenAtBounded(files: seq<FileEntry>, decode: string -> Option<string>)
    ensures forall k :: 0 <= k < |WrittenAt(files, decode)| ==> WrittenAt(files, decode)[k] < |files|
  {
    if files != [] {
      var init := files[..|files| - 1];
      WrittenAtBounded(init, decode);
      var before, idx := WrittenAt(init, decode), WrittenAt(files, decode);
      forall k | 0 <= k < |idx| ensures idx[k] < |files| {
        if k < |before| {
          assert idx[k] == before[k];
        }
      }
    }
  }

  /** The written positions strictly increase: the writes come in walk order. */
  lemma {:induction false} WrittenAtIncreasing(files: seq<FileEntry>, decode: string -> Option<string>)
    ensures forall k, l :: 0 <= k < l < |WrittenAt(files, decode)| ==> WrittenAt(files, decode)[k] < WrittenAt(files, decode)[l]
  {
    if files != [] {
      var init := files[..|files| - 1];
      WrittenAtIncreasing(init, decode);
      WrittenAtBounded(init, decode);
      var before, idx := WrittenAt(init, decode), WrittenAt(files, decode);
      forall k, l | 0 <= k < l < |idx| ensures idx[k] < idx[l] {
        assert idx[k] == before[k];
        if l < |before| {
          assert idx[l] == before[l];
        }
      }
    }
  }

  /** Every file written back has its position among the written ones, and no other. */
  lemma {:induction false} WrittenAtComplete(files: seq<FileEntry>, decode: string -> Option<string>)
    ensures forall i :: 0 <= i < |files| ==> (i in WrittenAt(files, decode) <==> Written(files[i], decode))
  {
    if files != [] {
      var init := files[..|files| - 1];
      WrittenAtComplete(init, decode);
      WrittenAtBounded(init, decode);
      var before, last := WrittenAt(init, decode), |files| - 1;
      var tail: seq<nat> := if Written(files[last], decode) then [last] else [];
      assert WrittenAt(files, decode) == before + tail;
      assert last !in before;
      forall i | 0 <= i < |files|
        ensures i in before + tail <==> Written(files[i], decode)
      {
        if i < last {
          assert files[i] == init[i];
          assert i !in tail;
        }
      }
    }
  }

  /**
   * The writes are exactly the rewrites of the readable files other than
   * `table_inspect.html` whose content splices and whose write succeeds,
   * one each, in walk order.
   */
  lemma RewritesExactly(files: seq<FileEntry>, decode: string -> Option<string>)
    ensures var idx, w := WrittenAt(files, decode), Rewrites(files, decode);
      && |w| == |idx|
      && (forall k :: 0 <= k < |w| ==>
            idx[k] < |files| && files[idx[k]].name != SkippedFile && files[idx[k]].content.Some?
            && files[idx[k]].writable && w[k].0 == files[idx[k]].path
            && Splice(files[idx[k]].content.value, decode) == Some(w[k].1))
      && (forall k, l :: 0 <= k < l < |w| ==> idx[k] < idx[l])
      && (forall i :: 0 <= i < |files| ==>
            (i in idx <==> files[i].name != SkippedFile && files[i].content.Some?
                           && Splice(files[i].content.value, decode).Some? && files[i].writable))
  {
    WrittenAtShape(files, decode);
    WrittenAtIncreasing(files, decode);
    WrittenAtComplete(files, decode);
  }

  /**
   * The walk of `download_course`: skips `table_inspect.html` and unreadable
   * files, writes back every file whose content splices, and collects the
   * paths whose write succeeded.
   */
  method RewriteFiles(files: seq<FileEntry>, decode: string -> Option<string>)
    returns (writes: seq<(string, string)>, changedFiles: seq<string>)
    ensures writes == Rewrites(files, decode)
    ensures |changedFiles| == |writes| && forall k :: 0 <= k < |writes| ==> changedFiles[k] == writes[k].0
  {
    writes, changedFiles := [], [];
    var i := 0;
    while i < |files|
      invariant 0 <= i <= |files|
      invariant writes == Rewrites(files[..i], decode)
      invariant |changedFiles| == |writes| && forall k :: 0 <= k < |writes| ==> changedFiles[k] == writes[k].0
    {
      var f := files[i];
      assert files[..i + 1][..i] == files[..i];
      if f.name == SkippedFile {
        i := i + 1;
        continue;
      }
      match f.content {
        case None =>
        case Some(content) =>
          if Contains(content, Marker) {
            if Count(content, Marker) >= 2 {
              var parts := Split(content, Marker);
              if |parts| >= 3 {
                var decoded := decode(parts[1]);
                if decoded.Some? {
                  var newContent := parts[0] + decoded.value + parts[2];
                  if f.writable {
                    writes := writes + [(f.path, newContent)];
                    changedFiles := changedFiles + [f.path];
                  }
                }
              }
            }
          }
      }
      i := i + 1;
    }
    assert files[..i] == files;
  }
}

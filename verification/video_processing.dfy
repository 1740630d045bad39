/**
 * Frame bookkeeping (video_processing.py): frame-file listing and
 * subsampling, and recovery of a frame's index from its file name.
 */
module VideoProcessing {
  import opened Optional
  import opened Text
  import Sorting

  // ---------------------------------------------------------------------------
  // Paths

  /**
   * `Path(path).name`: the last '/'-separated part that `pathlib` keeps (it
   * drops empty and "." parts), or "" when there is none.
   */
  function BaseName(path: string): (name: string)
    ensures forall i :: 0 <= i < |name| ==> name[i] != '/'
    ensures name != "."
    decreases |path|
  {
    var slash := RFind(path, '/');
    var tail := path[slash + 1..];
    if tail != "" && tail != "." then
      assert forall i :: 0 <= i < |tail| ==> tail[i] == path[slash + 1 + i];
      tail
    else if slash < 0 then ""
    else BaseName(path[..slash])
  }

  /** A directory entry joined under a directory keeps the entry as its name. */
  lemma BaseNameOfJoin(dir: string, name: string)
    requires name != "" && name != "."
    requires forall i :: 0 <= i < |name| ==> name[i] != '/'
    ensures BaseName(dir + "/" + name) == name
  {
    var path := dir + "/" + name;
    assert path[|dir|] == '/';
    assert forall j :: |dir| < j < |path| ==> path[j] == name[j - |dir| - 1];
    RFindIs(path, '/', |dir|);
    assert path[|dir| + 1..] == name;
  }

  // ---------------------------------------------------------------------------
  // The pattern frame_(\d+)\.jpg

  /** Length of the maximal run of digits starting at `i`. */
  function DigitRun(s: string, i: nat): (n: nat)
    requires i <= |s|
    ensures i + n <= |s|
    ensures forall k :: i <= k < i + n ==> IsDigit(s[k])
    ensures i + n == |s| || !IsDigit(s[i + n])
    decreases |s| - i
  {
    if i < |s| && IsDigit(s[i]) then 1 + DigitRun(s, i + 1) else 0
  }

  /** The frame number if `frame_<digits>.jpg` occurs at index `i` of `name`. */
  function FrameNumberAt(name: string, i: nat): (r: Option<nat>)
    requires i <= |name|
    ensures r.Some? ==> exists d :: FrameTokenAt(name, i, d) && r.value == DigitsValue(d)
  {
    if !OccursAt(name, "frame_", i) then None
    else
      var n := DigitRun(name, i + 6);
      var after := i + 6 + n;
      if n > 0 && OccursAt(name, ".jpg", after) then
        assert FrameTokenAt(name, i, name[i + 6..after]);
        Some(DigitsValue(name[i + 6..after]))
      else None
  }

  /** `name` holds `frame_` + `d` + `.jpg` at index `i`, with `d` a non-empty digit string. */
  ghost predicate FrameTokenAt(name: string, i: nat, d: string) {
    |d| > 0 && AllDigits(d) && i + 6 + |d| + 4 <= |name|
    && name[i..i + 6 + |d| + 4] == "frame_" + d + ".jpg"
  }

  /** `re.search(r"frame_(\d+)\.jpg", name)`: the group of the leftmost match, as a number. */
  function FrameNumber(name: string): Option<nat> {
    SearchFrameFrom(name, 0)
  }

  /** The leftmost position at or after `i` where the pattern matches, and its number. */
  function SearchFrameFrom(name: string, i: nat): (r: Option<nat>)
    requires i <= |name|
    ensures r.Some? ==> exists k :: i <= k <= |name| && FrameNumberAt(name, k) == r
                                   && forall j :: i <= j < k ==> FrameNumberAt(name, j).None?
    ensures r.None? ==> forall k :: i <= k <= |name| ==> FrameNumberAt(name, k).None?
    decreases |name| - i
  {
    var here := FrameNumberAt(name, i);
    if here.Some? then here
    else if i == |name| then None
    else
      var rest := SearchFrameFrom(name, i + 1);
      assert rest.Some? ==> exists k :: i <= k <= |name| && FrameNumberAt(name, k) == rest
                                       && forall j :: i <= j < k ==> FrameNumberAt(name, j).None? by {
        if rest.Some? {
          var k :| i + 1 <= k <= |name| && FrameNumberAt(name, k) == rest
                   && forall j :: i + 1 <= j < k ==> FrameNumberAt(name, j).None?;
          assert forall j :: i <= j < k ==> FrameNumberAt(name, j).None?;
        }
      }
      rest
  }

  /**
   * `frame_index_from_name`: the number in the file name minus one (the
   * splitter is assumed to number frames from 1), or 0 with no match.
   */
  function FrameIndexFromName(path: string): int {
    match FrameNumber(BaseName(path))
    case None => 0
    case Some(n) => n - 1
  }

  /** The pattern matches `frame_` + `d` + `.jpg` at its start, with group `d`. */
  lemma FrameNumberOfToken(d: string)
    requires |d| > 0 && AllDigits(d)
    ensures FrameNumber("frame_" + d + ".jpg") == Some(DigitsValue(d))
  {
    var name := "frame_" + d + ".jpg";
    assert name[0..6] == "frame_";
    assert name[6..6 + |d|] == d;
    assert name[6 + |d|..6 + |d| + 4] == ".jpg";
    DigitRunIs(name, 6, |d|);
  }

  /** A name without '/' that is neither "" nor "." is its own base name. */
  lemma BaseNameOfPlain(name: string)
    requires name != "" && name != "."
    requires forall i :: 0 <= i < |name| ==> name[i] != '/'
    ensures BaseName(name) == name
  {
    RFindIs(name, '/', -1);
    assert name[0..] == name;
  }

  lemma FrameNameHasNoSlash(d: string)
    requires AllDigits(d)
    ensures forall i :: 0 <= i < |"frame_" + d + ".jpg"| ==> ("frame_" + d + ".jpg")[i] != '/'
  {
    var name := "frame_" + d + ".jpg";
    forall i | 0 <= i < |name|
      ensures name[i] != '/'
    {
      if 6 <= i < 6 + |d| {
        assert name[i] == d[i - 6];
      }
    }
  }

  /** A bare `frame_<d>.jpg` name yields the value of `d` minus one. */
  lemma FrameIndexOfDigits(d: string)
    requires |d| > 0 && AllDigits(d)
    ensures FrameIndexFromName("frame_" + d + ".jpg") == DigitsValue(d) - 1
  {
    FrameNameHasNoSlash(d);
    BaseNameOfPlain("frame_" + d + ".jpg");
    FrameNumberOfToken(d);
  }

  /** A bare `frame_N.jpg` name yields N - 1, whatever zero padding N has. */
  lemma FrameIndexOfFrameName(zeros: nat, n: nat)
    ensures FrameIndexFromName("frame_" + (Repeat('0', zeros) + NatToString(n)) + ".jpg") == n - 1
  {
    LeadingZerosValue(zeros, NatToString(n));
    NatToStringValue(n);
    FrameIndexOfDigits(Repeat('0', zeros) + NatToString(n));
  }

  /** The run length is determined by the characters: all digits, then a non-digit or the end. */
  lemma DigitRunIs(s: string, i: nat, n: nat)
    requires i + n <= |s|
    requires forall k :: i <= k < i + n ==> IsDigit(s[k])
    requires i + n == |s| || !IsDigit(s[i + n])
    ensures DigitRun(s, i) == n
    decreases n
  {
    if n > 0 {
      DigitRunIs(s, i + 1, n - 1);
    }
  }

  lemma {:induction false} LeadingZerosValue(zeros: nat, d: string)
    requires AllDigits(d)
    ensures AllDigits(Repeat('0', zeros) + d)
    ensures DigitsValue(Repeat('0', zeros) + d) == DigitsValue(d)
    decreases |d|
  {
    var s := Repeat('0', zeros) + d;
    if |d| == 0 {
      assert s == Repeat('0', zeros);
      AllZerosValue(zeros);
    } else {
      LeadingZerosValue(zeros, d[..|d| - 1]);
      assert s[..|s| - 1] == Repeat('0', zeros) + d[..|d| - 1];
    }
  }

  lemma {:induction false} AllZerosValue(n: nat)
    ensures DigitsValue(Repeat('0', n)) == 0
  {
    if n > 0 {
      assert Repeat('0', n)[..n - 1] == Repeat('0', n - 1);
      AllZerosValue(n - 1);
    }
  }

  /**
   * The splitter numbers frames from 0, so its first frame, `frame_000000.jpg`
   * (k = 6 zeros), gets index -1.
   */
  lemma ZeroFrameIndex(k: nat)
    requires k >= 1
    ensures FrameIndexFromName("frame_" + Repeat('0', k) + ".jpg") == -1
  {
    AllZerosValue(k);
    FrameIndexOfDigits(Repeat('0', k));
  }

  // ---------------------------------------------------------------------------
  // Listing and subsampling

  /** The glob `frame_*.jpg` on one directory entry. */
  predicate IsFrameFile(name: string) {
    |name| >= 10 && StartsWith(name, "frame_") && EndsWith(name, ".jpg")
  }

  /** Code-point lexicographic order: how Python compares the names of sibling paths. */
  predicate LexLe(a: string, b: string) {
    if |a| == 0 then true
    else if |b| == 0 then false
    else if a[0] != b[0] then a[0] < b[0]
    else LexLe(a[1..], b[1..])
  }

  lemma {:induction false} LexLeTotal(a: string, b: string)
    ensures LexLe(a, b) || LexLe(b, a)
  {
    if |a| > 0 && |b| > 0 && a[0] == b[0] {
      LexLeTotal(a[1..], b[1..]);
    }
  }

  lemma {:induction false} LexLeTransitive(a: string, b: string, c: string)
    requires LexLe(a, b) && LexLe(b, c)
    ensures LexLe(a, c)
  {
    if |a| > 0 && |b| > 0 && |c| > 0 && a[0] == b[0] && b[0] == c[0] {
      LexLeTransitive(a[1..], b[1..], c[1..]);
    }
  }

  lemma LexLeIsTotalPreorder()
    ensures Sorting.TotalPreorder(LexLe)
  {
    forall a, b
      ensures LexLe(a, b) || LexLe(b, a)
    {
      LexLeTotal(a, b);
    }
    forall a, b, c | LexLe(a, b) && LexLe(b, c)
      ensures LexLe(a, c)
    {
      LexLeTransitive(a, b, c);
    }
  }

  /** The entries of a directory listing that match `frame_*.jpg`, in listing order. */
  function FrameFiles(listing: seq<string>): (r: seq<string>)
    ensures forall i :: 0 <= i < |r| ==> IsFrameFile(r[i])
    ensures forall x :: x in r <==> x in listing && IsFrameFile(x)
  {
    if |listing| == 0 then []
    else (if IsFrameFile(listing[0]) then [listing[0]] else []) + FrameFiles(listing[1..])
  }

  /** `sorted(frames_dir.glob("frame_*.jpg"))` for a directory whose entries are `listing`. */
  function AllFrames(listing: seq<string>): (r: seq<string>)
    ensures Sorting.Sorted(LexLe, r)
    ensures multiset(r) == multiset(FrameFiles(listing))
  {
    LexLeIsTotalPreorder();
    Sorting.Sort(LexLe, FrameFiles(listing))
  }

  /**
   * `s[::step]`: the elements at positions 0, step, 2*step, ..., of which
   * there are ceil(|s| / step).
   */
  function EveryNth<T>(s: seq<T>, step: nat): (r: seq<T>)
    requires step >= 1
    ensures |s| == 0 ==> |r| == 0
    ensures |s| > 0 ==> (|r| - 1) * step < |s| <= |r| * step
    ensures forall j :: 0 <= j < |r| ==> j * step < |s| && r[j] == s[j * step]
    decreases |s|
  {
    if |s| == 0 then []
    else if |s| <= step then [s[0]]
    else
      var rest := EveryNth(s[step..], step);
      EveryNthStep(s, step, rest);
      [s[0]] + rest
  }

  /** One recursive step of `EveryNth`: prepend the head, shift the rest by `step`. */
  lemma EveryNthStep<T>(s: seq<T>, step: nat, rest: seq<T>)
    requires step >= 1 && |s| > step
    requires (|rest| - 1) * step < |s| - step <= |rest| * step
    requires forall j :: 0 <= j < |rest| ==> j * step < |s| - step && rest[j] == s[step..][j * step]
    ensures (|[s[0]] + rest| - 1) * step < |s| <= |[s[0]] + rest| * step
    ensures forall j :: 0 <= j < |[s[0]] + rest| ==> j * step < |s| && ([s[0]] + rest)[j] == s[j * step]
  {
    var r := [s[0]] + rest;
    assert |r| * step == step + |rest| * step;
    forall j | 0 <= j < |r|
      ensures j * step < |s| && r[j] == s[j * step]
    {
      if j > 0 {
        var i := j - 1;
        assert j * step == i * step + step;
        assert rest[i] == s[step..][i * step];
      }
    }
  }

  /**
   * `get_sampled_frame_paths`: the sorted frame files, thinned to every
   * `step`-th one when `step` exceeds 1.
   */
  function SampledFrames(listing: seq<string>, step: int): (r: seq<string>)
    ensures step <= 1 ==> r == AllFrames(listing)
    ensures step > 1 && |AllFrames(listing)| > 0 ==>
              (|r| - 1) * step < |AllFrames(listing)| <= |r| * step
    ensures step > 1 ==> forall j :: 0 <= j < |r| ==>
              j * step < |AllFrames(listing)| && r[j] == AllFrames(listing)[j * step]
  {
    var all := AllFrames(listing);
    if step <= 1 then all else EveryNth(all, step)
  }
}

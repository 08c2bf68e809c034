/** `do_build_user_path`: the textual normaliser that every path goes through before it
    reaches the file systems. It works in place on a buffer of BUFSZ bytes; here it is proved to
    be a fold over the path's segments on a stack of directory names. */
module PathNorm {
  import opened Prelude

  const BUFSZ: nat := 4096

  // ----- strings -----

  predicate NoNul(s: string) { '\0' !in s }

  /** The C string a buffer holds. */
  function CStr(s: string): string {
    if s == [] || s[0] == '\0' then [] else [s[0]] + CStr(s[1..])
  }

  lemma {:induction false} CStrOf(s: string, tail: string)
    requires NoNul(s) && |tail| > 0 && tail[0] == '\0'
    ensures CStr(s + tail) == s
  {
    if s == [] {
      assert s + tail == tail;
    } else {
      assert (s + tail)[1..] == s[1..] + tail;
      CStrOf(s[1..], tail);
    }
  }

  /** Number of leading characters other than '/'. */
  function NameRun(s: string): (n: nat)
    ensures n <= |s|
    ensures forall k :: 0 <= k < n ==> s[k] != '/'
    ensures n < |s| ==> s[n] == '/'
  {
    if s == [] || s[0] == '/' then 0 else 1 + NameRun(s[1..])
  }

  /** The maximal runs of characters other than '/', in order. */
  function Segments(s: string): seq<string>
    decreases |s|
  {
    if s == [] then []
    else if s[0] == '/' then Segments(s[1..])
    else [s[..NameRun(s)]] + Segments(s[NameRun(s)..])
  }

  // ----- what the buffer goes through -----

  function TextPush(s: string, seg: string): string {
    if |s| > 1 then s + "/" + seg else s + seg
  }

  function DropName(s: string): string {
    if |s| > 1 && s[|s| - 1] != '/' then DropName(s[..|s| - 1]) else s
  }

  function TextPop(s: string): string {
    var dir := DropName(s);
    if |dir| > 1 && dir[|dir| - 1] == '/' then dir[..|dir| - 1] else dir
  }

  function TrimSlashes(s: string): string {
    if |s| > 1 && s[|s| - 1] == '/' then TrimSlashes(s[..|s| - 1]) else s
  }

  function TextStep(s: string, seg: string): Option<string> {
    if seg == "." then Some(s)
    else if seg == ".." then Some(if |s| > 1 then TextPop(s) else s)
    else if |TextPush(s, seg)| < BUFSZ then Some(TextPush(s, seg)) else None
  }

  /** The result for text s and the segments still to come; empty once a push does not fit. */
  function TextFold(s: string, segs: seq<string>): string
    decreases |segs|
  {
    if segs == [] then s else
    match TextStep(s, segs[0])
    case None => ""
    case Some(t) => TextFold(t, segs[1..])
  }

  /** The result for a path, NULL being None. */
  function Normalised(path: Option<string>, cwd: Option<string>): string {
    if cwd.None? then ""
    else if path.None? || path.value == "" then (if |cwd.value| < BUFSZ then cwd.value else "")
    else if path.value[0] == '/' then TextFold("/", Segments(path.value))
    else if cwd.value == "" || cwd.value[0] != '/' || |cwd.value| >= BUFSZ then ""
    else TextFold(TrimSlashes(cwd.value), Segments(path.value))
  }

  // ----- the in-place builder -----

  /** Skipping slashes does not change the segments to come. */
  lemma {:induction false} SkipSlashes(s: string, k: nat)
    requires k <= |s| && (forall j :: 0 <= j < k ==> s[j] == '/')
    ensures Segments(s) == Segments(s[k..])
  {
    if k == 0 {
      assert s[0..] == s;
    } else {
      SkipSlashes(s[1..], k - 1);
      assert s[1..][k - 1..] == s[k..];
    }
  }

  lemma NameRunIs(s: string, n: nat)
    requires n <= |s| && (forall j :: 0 <= j < n ==> s[j] != '/') && (n < |s| ==> s[n] == '/')
    ensures NameRun(s) == n
  {
    if n < NameRun(s) { assert s[n] != '/'; }
  }

  /** A name of n characters at the front is the next segment. */
  lemma FirstSegment(s: string, n: nat)
    requires 0 < n <= |s| && (forall j :: 0 <= j < n ==> s[j] != '/') && (n < |s| ==> s[n] == '/')
    ensures Segments(s) == [s[..n]] + Segments(s[n..])
  {
    NameRunIs(s, n);
  }

  lemma NoSegment(s: string)
    requires forall j :: 0 <= j < |s| ==> s[j] == '/'
    ensures Segments(s) == []
  {
    SkipSlashes(s, |s|);
    assert s[|s|..] == [];
  }

  /** What the text in the buffer always looks like. */
  predicate TextOk(s: string) { 0 < |s| < BUFSZ && s[0] == '/' && NoNul(s) }

  lemma {:induction false} DropNamePrefix(s: string)
    requires |s| > 0
    ensures 0 < |DropName(s)| <= |s| && DropName(s) == s[..|DropName(s)|]
  {
    if |s| > 1 && s[|s| - 1] != '/' {
      DropNamePrefix(s[..|s| - 1]);
      var d := DropName(s);
      assert s[..|s| - 1][..|d|] == s[..|d|];
    }
  }

  lemma {:induction false} TrimPrefix(s: string)
    requires |s| > 0
    ensures 0 < |TrimSlashes(s)| <= |s| && TrimSlashes(s) == s[..|TrimSlashes(s)|]
  {
    if |s| > 1 && s[|s| - 1] == '/' {
      TrimPrefix(s[..|s| - 1]);
      var d := TrimSlashes(s);
      assert s[..|s| - 1][..|d|] == s[..|d|];
    }
  }

  lemma PopOk(s: string)
    requires TextOk(s)
    ensures TextOk(TextPop(s)) && |TextPop(s)| <= |s| && TextPop(s) == s[..|TextPop(s)|]
  {
    DropNamePrefix(s);
  }

  /** Cuts the last name off the text in buf[..wr]. */
  method CutName(buf: array<char>, wr: nat) returns (cut: nat)
    requires 1 < wr < BUFSZ <= buf.Length && TextOk(buf[..wr])
    ensures cut <= wr && buf[..cut] == TextPop(buf[..wr])
  {
    ghost var s := buf[..wr];
    cut := wr;
    while cut > 1 && buf[cut - 1] != '/'
      invariant 0 < cut <= wr && DropName(buf[..cut]) == DropName(s)
    {
      assert buf[..cut][..cut - 1] == buf[..cut - 1];
      cut := cut - 1;
    }
    assert DropName(s) == buf[..cut];
    if cut > 1 && buf[cut - 1] == '/' {
      assert buf[..cut][..cut - 1] == buf[..cut - 1];
      cut := cut - 1;
    }
  }

  /** Appends src[from..to] to the text in buf[..wr]. */
  method Copy(buf: array<char>, wr: nat, src: string, from: nat, to: nat)
    requires from <= to <= |src| && wr + (to - from) < BUFSZ <= buf.Length
    modifies buf
    ensures buf[..wr + (to - from)] == old(buf[..wr]) + src[from..to]
    ensures buf[BUFSZ..] == old(buf[BUFSZ..])
  {
    var k := from;
    while k < to
      invariant from <= k <= to
      invariant buf[..wr + (k - from)] == old(buf[..wr]) + src[from..k]
      invariant buf[BUFSZ..] == old(buf[BUFSZ..])
    {
      buf[wr + (k - from)] := src[k];
      k := k + 1;
      assert src[from..k] == src[from..k - 1] + [src[k - 1]];
    }
  }

  method Terminate(buf: array<char>, wr: nat)
    requires wr < BUFSZ <= buf.Length && NoNul(buf[..wr])
    modifies buf
    ensures CStr(buf[..]) == old(buf[..wr]) == buf[..wr]
    ensures buf[BUFSZ..] == old(buf[BUFSZ..])
  {
    buf[wr] := '\0';
    CStrOf(buf[..wr], buf[wr..]);
    assert buf[..] == buf[..wr] + buf[wr..];
  }

  /** Applies one segment to the text in buf[..wr]; ok is false when it does not fit. */
  method ApplySegment(buf: array<char>, wr: nat, src: string, from: nat, to: nat) returns (wr': nat, ok: bool)
    requires from < to <= |src| && NoNul(src) && wr < BUFSZ <= buf.Length && TextOk(buf[..wr])
    modifies buf
    ensures buf[BUFSZ..] == old(buf[BUFSZ..])
    ensures ok == TextStep(old(buf[..wr]), src[from..to]).Some?
    ensures ok ==> wr' < BUFSZ && TextStep(old(buf[..wr]), src[from..to]) == Some(buf[..wr']) && TextOk(buf[..wr'])
  {
    ghost var s, seg := buf[..wr], src[from..to];
    wr', ok := wr, true;
    if to - from == 1 && src[from] == '.' {
      assert seg == ".";
    } else if to - from == 2 && src[from] == '.' && src[from + 1] == '.' {
      assert seg == "..";
      if wr > 1 {
        PopOk(s);
        wr' := CutName(buf, wr);
        assert buf[..wr'] == TextPop(s);
      }
    } else {
      assert seg != "." && seg != "..";
      if wr > 1 {
        if wr + 1 >= BUFSZ { return wr, false; }
        buf[wr] := '/';
        wr' := wr + 1;
        assert buf[..wr'] == s + "/";
      }
      if wr' + (to - from) >= BUFSZ { return wr, false; }
      Copy(buf, wr', src, from, to);
      wr' := wr' + (to - from);
      assert buf[..wr'] == TextPush(s, seg);
    }
  }

  lemma FoldFirst(s: string, seg: string, segs: seq<string>)
    ensures TextFold(s, [seg] + segs) == match TextStep(s, seg) case None => "" case Some(t) => TextFold(t, segs)
  {
    assert ([seg] + segs)[1..] == segs;
  }

  lemma FoldNone(s: string)
    ensures TextFold(s, []) == s
  {
  }

  /** The main loop: applies the segments of path[from..] to the text in buf[..start]. */
  method Walk(buf: array<char>, start: nat, path: string, from: nat)
    requires start < BUFSZ <= buf.Length && TextOk(buf[..start]) && NoNul(path) && from <= |path|
    modifies buf
    ensures CStr(buf[..]) == TextFold(old(buf[..start]), Segments(path[from..]))
    ensures buf[BUFSZ..] == old(buf[BUFSZ..])
  {
    hide Segments, TextFold, TextStep;
    var wr, p := start, from;
    while p < |path|
      invariant from <= p <= |path| && 0 <= wr < BUFSZ && TextOk(buf[..wr])
      invariant TextFold(buf[..wr], Segments(path[p..])) == TextFold(old(buf[..start]), Segments(path[from..]))
      invariant buf[BUFSZ..] == old(buf[BUFSZ..])
    {
      var seg := SkipAt(path, p);
      if seg == |path| { p := seg; break; }
      var end := NameAt(path, seg);
      FoldFirst(buf[..wr], path[seg..end], Segments(path[end..]));
      var ok;
      wr, ok := ApplySegment(buf, wr, path, seg, end);
      if !ok {
        buf[0] := '\0';
        return;
      }
      p := end;
    }
    assert path[p..] == [];
    NoSegment(path[p..]);
    FoldNone(buf[..wr]);
    Terminate(buf, wr);
  }

  method SkipAt(path: string, p: nat) returns (q: nat)
    requires p <= |path|
    ensures p <= q <= |path| && (q < |path| ==> path[q] != '/')
    ensures Segments(path[p..]) == Segments(path[q..])
  {
    hide Segments;
    q := p;
    while q < |path| && path[q] == '/'
      invariant p <= q <= |path| && forall j :: p <= j < q ==> path[j] == '/'
    {
      q := q + 1;
    }
    SkipSlashes(path[p..], q - p);
    assert path[p..][q - p..] == path[q..];
  }

  method NameAt(path: string, p: nat) returns (q: nat)
    requires p < |path| && path[p] != '/'
    ensures p < q <= |path| && (q < |path| ==> path[q] == '/') && '/' !in path[p..q]
    ensures Segments(path[p..]) == [path[p..q]] + Segments(path[q..])
  {
    hide Segments;
    q := p;
    while q < |path| && path[q] != '/'
      invariant p <= q <= |path| && forall j :: p <= j < q ==> path[j] != '/'
    {
      q := q + 1;
    }
    FirstSegment(path[p..], q - p);
    assert path[p..][..q - p] == path[p..q];
    assert path[p..][q - p..] == path[q..];
  }

  /** The builder fills the buffer with the normalised path and never writes at or past BUFSZ. */
  method BuildUserPath(buf: array?<char>, path: Option<string>, cwd: Option<string>)
    requires buf != null ==> buf.Length >= BUFSZ
    requires (path.Some? ==> NoNul(path.value)) && (cwd.Some? ==> NoNul(cwd.value))
    modifies buf
    ensures buf != null ==> CStr(buf[..]) == Normalised(path, cwd)
    ensures buf != null ==> buf[BUFSZ..] == old(buf[BUFSZ..])
  {
    if buf == null { return; }
    buf[0] := '\0';
    if cwd.None? { return; }
    if path.None? || path.value == "" {
      if |cwd.value| >= BUFSZ { return; }
      Copy(buf, 0, cwd.value, 0, |cwd.value|);
      assert buf[..|cwd.value|] == cwd.value;
      Terminate(buf, |cwd.value|);
      return;
    }
    var wr;
    if path.value[0] == '/' {
      buf[0] := '/';
      wr := 1;
      assert buf[..1] == "/";
      var p := SkipAt(path.value, 0);
      assert path.value[0..] == path.value;
      Walk(buf, wr, path.value, p);
    } else {
      if |cwd.value| == 0 || cwd.value[0] != '/' { return; }
      if |cwd.value| >= BUFSZ { return; }
      Copy(buf, 0, cwd.value, 0, |cwd.value|);
      wr := |cwd.value|;
      assert buf[..wr] == cwd.value;
      while wr > 1 && buf[wr - 1] == '/'
        invariant 0 < wr <= |cwd.value| && buf[..|cwd.value|] == cwd.value
        invariant TrimSlashes(buf[..wr]) == TrimSlashes(cwd.value)
      {
        assert buf[..wr][..wr - 1] == buf[..wr - 1];
        wr := wr - 1;
      }
      assert buf[..wr] == cwd.value[..wr];
      assert path.value[0..] == path.value;
      Walk(buf, wr, path.value, 0);
    }
  }

  // ----- the meaning: a stack of directory names -----

  /** A path segment, and one that names a directory entry. */
  predicate IsSegment(seg: string) { seg != "" && '/' !in seg }

  predicate IsName(seg: string) { IsSegment(seg) && seg != "." && seg != ".." }

  ghost predicate AllSegments(segs: seq<string>) { forall k :: 0 <= k < |segs| ==> IsSegment(segs[k]) }

  ghost predicate AllNames(dirs: seq<string>) { forall k :: 0 <= k < |dirs| ==> IsName(dirs[k]) }

  function Slashed(dirs: seq<string>): string {
    if dirs == [] then "" else "/" + dirs[0] + Slashed(dirs[1..])
  }

  /** The absolute path of a directory stack. */
  function Join(dirs: seq<string>): string { if dirs == [] then "/" else Slashed(dirs) }

  function StackStep(dirs: seq<string>, seg: string): seq<string> {
    if seg == "." then dirs
    else if seg == ".." then (if dirs == [] then [] else dirs[..|dirs| - 1])
    else dirs + [seg]
  }

  function StackFold(dirs: seq<string>, segs: seq<string>): seq<string>
    decreases |segs|
  {
    if segs == [] then dirs else StackFold(StackStep(dirs, segs[0]), segs[1..])
  }

  /** Every intermediate path fits the buffer. */
  ghost predicate Fits(dirs: seq<string>, segs: seq<string>) {
    forall k :: 0 <= k <= |segs| ==> |Join(StackFold(dirs, segs[..k]))| < BUFSZ
  }

  lemma {:induction false} SlashedSnoc(dirs: seq<string>, name: string)
    ensures Slashed(dirs + [name]) == Slashed(dirs) + "/" + name
  {
    if dirs == [] {
      assert [name][1..] == [];
    } else {
      assert (dirs + [name])[1..] == dirs[1..] + [name];
      SlashedSnoc(dirs[1..], name);
    }
  }

  lemma {:induction false} DropNameAt(dir: string, name: string)
    requires dir != "" && dir[|dir| - 1] == '/' && '/' !in name
    ensures DropName(dir + name) == dir
  {
    if name == "" {
      assert dir + name == dir;
    } else {
      var s := dir + name;
      assert s[..|s| - 1] == dir + name[..|name| - 1];
      DropNameAt(dir, name[..|name| - 1]);
    }
  }

  /** Cutting the last name off the text pops the stack. */
  lemma PopIsPop(dirs: seq<string>)
    requires AllNames(dirs) && dirs != []
    ensures |Join(dirs)| > 1 && TextPop(Join(dirs)) == Join(dirs[..|dirs| - 1])
  {
    var init, name := dirs[..|dirs| - 1], dirs[|dirs| - 1];
    assert dirs == init + [name];
    SlashedSnoc(init, name);
    DropNameAt(Slashed(init) + "/", name);
    assert Slashed(init) + "/" + name == (Slashed(init) + "/") + name;
    if init != [] { assert (Slashed(init) + "/")[..|Slashed(init)|] == Slashed(init); }
  }

  lemma StepIsStep(dirs: seq<string>, seg: string)
    requires AllNames(dirs) && IsSegment(seg) && |Join(dirs)| < BUFSZ
    ensures AllNames(StackStep(dirs, seg))
    ensures TextStep(Join(dirs), seg) ==
            if |Join(StackStep(dirs, seg))| < BUFSZ then Some(Join(StackStep(dirs, seg))) else None
  {
    if seg == ".." && dirs != [] {
      PopIsPop(dirs);
      PopShorter(dirs);
    } else if seg != "." && seg != ".." {
      SlashedSnoc(dirs, seg);
      assert TextPush(Join(dirs), seg) == Slashed(dirs) + "/" + seg;
      assert Join(dirs + [seg]) == Slashed(dirs + [seg]);
    }
  }

  lemma PopShorter(dirs: seq<string>)
    requires AllNames(dirs) && dirs != []
    ensures |Join(dirs[..|dirs| - 1])| <= |Join(dirs)|
  {
    assert dirs == dirs[..|dirs| - 1] + [dirs[|dirs| - 1]];
    SlashedSnoc(dirs[..|dirs| - 1], dirs[|dirs| - 1]);
  }

  lemma FitsFirst(dirs: seq<string>, segs: seq<string>)
    requires segs != []
    ensures Fits(dirs, segs) <==> |Join(dirs)| < BUFSZ && Fits(StackStep(dirs, segs[0]), segs[1..])
  {
    var next := StackStep(dirs, segs[0]);
    forall k | 0 <= k < |segs| ensures StackFold(dirs, segs[..k + 1]) == StackFold(next, segs[1..][..k]) {
      assert segs[..k + 1][1..] == segs[1..][..k];
    }
    assert StackFold(dirs, segs[..0]) == dirs;
    if Fits(dirs, segs) {
      assert |Join(StackFold(dirs, segs[..0]))| < BUFSZ;
      forall k | 0 <= k <= |segs[1..]| ensures |Join(StackFold(next, segs[1..][..k]))| < BUFSZ {
        assert |Join(StackFold(dirs, segs[..k + 1]))| < BUFSZ;
      }
    }
    if |Join(dirs)| < BUFSZ && Fits(next, segs[1..]) {
      forall k | 0 <= k <= |segs| ensures |Join(StackFold(dirs, segs[..k]))| < BUFSZ {
        if k > 0 { assert |Join(StackFold(next, segs[1..][..k - 1]))| < BUFSZ; }
      }
    }
  }

  /** The buffer always holds the joined stack. */
  lemma {:induction false} FoldIsFold(dirs: seq<string>, segs: seq<string>)
    requires AllNames(dirs) && AllSegments(segs) && |Join(dirs)| < BUFSZ
    ensures TextFold(Join(dirs), segs) == if Fits(dirs, segs) then Join(StackFold(dirs, segs)) else ""
    ensures AllNames(StackFold(dirs, segs))
    decreases |segs|
  {
    if segs == [] {
      assert segs[..0] == [];
    } else {
      var next := StackStep(dirs, segs[0]);
      StepIsStep(dirs, segs[0]);
      FitsFirst(dirs, segs);
      if |Join(next)| < BUFSZ {
        FoldIsFold(next, segs[1..]);
      } else {
        assert segs[1..][..0] == [];
        assert StackFold(next, segs[1..][..0]) == next;
        FoldNames(next, segs[1..]);
      }
    }
  }

  lemma {:induction false} FoldNames(dirs: seq<string>, segs: seq<string>)
    requires AllNames(dirs) && AllSegments(segs)
    ensures AllNames(StackFold(dirs, segs))
    decreases |segs|
  {
    if segs != [] { FoldNames(StackStep(dirs, segs[0]), segs[1..]); }
  }

  lemma {:induction false} SegmentsOk(s: string)
    ensures AllSegments(Segments(s))
    decreases |s|
  {
    if s != [] { SegmentsOk(s[if s[0] == '/' then 1 else NameRun(s)..]); }
  }

  lemma {:induction false} SegmentsOfSlashed(dirs: seq<string>)
    requires AllNames(dirs)
    ensures Segments(Slashed(dirs)) == dirs
  {
    hide Segments;
    if dirs == [] {
      NoSegment(Slashed(dirs));
    } else {
      var tail := Slashed(dirs[1..]);
      var s := Slashed(dirs);
      SkipSlashes(s, 1);
      assert s[1..] == dirs[0] + tail;
      FirstSegment(s[1..], |dirs[0]|);
      assert s[1..][..|dirs[0]|] == dirs[0] && s[1..][|dirs[0]|..] == tail;
      SegmentsOfSlashed(dirs[1..]);
    }
  }

  lemma SegmentsOfJoin(dirs: seq<string>)
    requires AllNames(dirs)
    ensures Segments(Join(dirs)) == dirs
  {
    if dirs == [] { NoSegment("/"); } else { SegmentsOfSlashed(dirs); }
  }

  lemma TrimJoin(dirs: seq<string>)
    requires AllNames(dirs)
    ensures TrimSlashes(Join(dirs)) == Join(dirs)
  {
    if dirs != [] {
      var init, name := dirs[..|dirs| - 1], dirs[|dirs| - 1];
      assert dirs == init + [name];
      SlashedSnoc(init, name);
    }
  }

  /** Where resolution starts: the root for an absolute path, else the working directory. */
  function StartOf(path: string, dirs: seq<string>): seq<string> {
    if path != "" && path[0] == '/' then [] else dirs
  }

  /** Normalisation is a stack fold: with working directory dirs, names are pushed, "." is
      ignored, ".." pops and the root absorbs it; the result is empty exactly when some
      intermediate path does not fit. */
  lemma NormalisedIsFold(path: string, dirs: seq<string>)
    requires AllNames(dirs) && |Join(dirs)| < BUFSZ
    ensures var start, segs := StartOf(path, dirs), Segments(path);
            Normalised(Some(path), Some(Join(dirs))) == if Fits(start, segs) then Join(StackFold(start, segs)) else ""
  {
    SegmentsOk(path);
    FoldIsFold(StartOf(path, dirs), Segments(path));
    if path == "" { NoSegment(path); FoldNone(Join(dirs)); }
    TrimJoin(dirs);
  }

  lemma EmptyIffTooLong(path: string, dirs: seq<string>)
    requires AllNames(dirs) && |Join(dirs)| < BUFSZ
    ensures var start, segs := StartOf(path, dirs), Segments(path);
            Normalised(Some(path), Some(Join(dirs))) == "" <==>
              exists k :: 0 <= k <= |segs| && |Join(StackFold(start, segs[..k]))| >= BUFSZ
  {
    NormalisedIsFold(path, dirs);
  }

  /** A result is canonical: an absolute path of proper names, without empty, "." or ".."
      segments and without a trailing slash. */
  lemma ResultIsCanonical(path: string, dirs: seq<string>)
    requires AllNames(dirs) && |Join(dirs)| < BUFSZ && Normalised(Some(path), Some(Join(dirs))) != ""
    ensures var r := Normalised(Some(path), Some(Join(dirs)));
            AllNames(Segments(r)) && r == Join(Segments(r)) && |r| < BUFSZ
  {
    var start, segs := StartOf(path, dirs), Segments(path);
    NormalisedIsFold(path, dirs);
    SegmentsOk(path);
    FoldNames(start, segs);
    SegmentsOfJoin(StackFold(start, segs));
    assert segs[..|segs|] == segs;
  }

  lemma {:induction false} PushAll(dirs: seq<string>, names: seq<string>)
    requires AllNames(names)
    ensures StackFold(dirs, names) == dirs + names
    decreases |names|
  {
    if names == [] {
      assert dirs + names == dirs;
    } else {
      PushAll(dirs + [names[0]], names[1..]);
      assert dirs + [names[0]] + names[1..] == dirs + names;
    }
  }

  lemma {:induction false} PrefixShorter(dirs: seq<string>, k: nat)
    requires k <= |dirs| && AllNames(dirs)
    ensures |Join(dirs[..k])| <= |Join(dirs)|
    decreases |dirs| - k
  {
    if k == |dirs| {
      assert dirs[..k] == dirs;
    } else {
      PopShorter(dirs[..k + 1]);
      assert dirs[..k + 1][..k] == dirs[..k];
      PrefixShorter(dirs, k + 1);
    }
  }

  /** Normalising a result again, from any working directory, changes nothing. */
  lemma Idempotent(path: string, dirs: seq<string>, cwd: string)
    requires AllNames(dirs) && |Join(dirs)| < BUFSZ && Normalised(Some(path), Some(Join(dirs))) != ""
    ensures var r := Normalised(Some(path), Some(Join(dirs))); Normalised(Some(r), Some(cwd)) == r
  {
    hide Segments, TextFold, Join;
    ResultIsCanonical(path, dirs);
    var r := Normalised(Some(path), Some(Join(dirs)));
    CanonicalFixed(r, Segments(r), cwd);
  }

  lemma SlashedFirst(names: seq<string>)
    ensures Join(names) != "" && Join(names)[0] == '/'
  {
  }

  lemma CanonicalFixed(r: string, names: seq<string>, cwd: string)
    requires AllNames(names) && r == Join(names) && |r| < BUFSZ
    ensures Normalised(Some(r), Some(cwd)) == r
  {
    hide Segments, TextFold, StackFold, Slashed;
    SegmentsOfJoin(names);
    SlashedFirst(names);
    FoldIsFold([], names);
    PushAll([], names);
    forall k | 0 <= k <= |names| ensures |Join(StackFold([], names[..k]))| < BUFSZ {
      PushAll([], names[..k]);
      assert [] + names[..k] == names[..k];
      PrefixShorter(names, k);
    }
    assert [] + names == names;
  }

  // ----- what callers of the normaliser rely on -----

  lemma {:induction false} FoldText(s: string, segs: seq<string>)
    requires NoNul(s) && s != "" && s[0] == '/' && (forall k :: 0 <= k < |segs| ==> NoNul(segs[k]))
    ensures var r := TextFold(s, segs); r != "" ==> NoNul(r) && r[0] == '/'
    decreases |segs|
  {
    if segs != [] {
      var next := TextStep(s, segs[0]);
      if next.Some? {
        if segs[0] == ".." { DropNamePrefix(s); }
        FoldText(next.value, segs[1..]);
      }
    }
  }

  lemma {:induction false} SegmentsNoNul(s: string)
    requires NoNul(s)
    ensures forall k :: 0 <= k < |Segments(s)| ==> NoNul(Segments(s)[k])
    decreases |s|
  {
    if s != [] { SegmentsNoNul(s[if s[0] == '/' then 1 else NameRun(s)..]); }
  }

  /** From an absolute working directory, every result is absolute. */
  lemma NormalisedAbsolute(path: string, cwd: string)
    requires NoNul(path) && NoNul(cwd) && (cwd == "" || cwd[0] == '/')
    ensures var r := Normalised(Some(path), Some(cwd)); r != "" ==> NoNul(r) && r[0] == '/'
  {
    hide Segments, TextFold;
    SegmentsNoNul(path);
    FoldText("/", Segments(path));
    if cwd != "" {
      TrimPrefix(cwd);
      FoldText(TrimSlashes(cwd), Segments(path));
    }
  }
}

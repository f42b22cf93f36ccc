/**
 Lexical path cleaning, as Go's path.Clean documents it: the shortest path that names the same
 place, found by working on the segments between slashes as on a stack. The proxy decides what it
 forwards on cleaned paths.
 */
module PathClean {
  import opened Splitting

  type Path = string

  predicate Rooted(p: Path) {
    |p| > 0 && p[0] == '/'
  }

  /** One segment read from the left. */
  function Push(rooted: bool, stack: seq<string>, seg: string): seq<string> {
    if seg == "" || seg == "." then stack
    else if seg == ".." then
      if |stack| > 0 && stack[|stack| - 1] != ".." then stack[..|stack| - 1]
      else if rooted then stack else stack + [".."]
    else stack + [seg]
  }

  function Fold(rooted: bool, segs: seq<string>): seq<string>
    decreases |segs|
  {
    if |segs| == 0 then [] else Push(rooted, Fold(rooted, segs[..|segs| - 1]), segs[|segs| - 1])
  }

  function Render(rooted: bool, stack: seq<string>): Path {
    if rooted then "/" + Join(stack, '/')
    else if |stack| == 0 then "." else Join(stack, '/')
  }

  /** The place a path names, as the stack of its segments. */
  function Place(p: Path): seq<string> {
    Fold(Rooted(p), Split(p, '/'))
  }

  function Clean(p: Path): Path {
    Render(Rooted(p), Place(p))
  }

  // ----- Cleaned paths -----

  predicate Plain(seg: string) {
    seg != "" && seg != "." && '/' !in seg
  }

  /** No empty or `.` segment; `..` only at the front, and never on a rooted path. */
  predicate Normal(rooted: bool, stack: seq<string>) {
    && (forall s | s in stack :: Plain(s))
    && (forall i | 0 <= i < |stack| && stack[i] == ".." :: !rooted && forall j | 0 <= j < i :: stack[j] == "..")
  }

  lemma PushNormal(rooted: bool, stack: seq<string>, seg: string)
    requires Normal(rooted, stack) && '/' !in seg
    ensures Normal(rooted, Push(rooted, stack, seg))
  {
    var r := Push(rooted, stack, seg);
    if r != stack && |r| > |stack| && seg == ".." {
      forall i | 0 <= i < |stack| ensures stack[i] == ".." {
        assert stack[|stack| - 1] == "..";
      }
    }
  }

  lemma {:induction false} FoldNormal(rooted: bool, segs: seq<string>)
    requires Free(segs, '/')
    ensures Normal(rooted, Fold(rooted, segs))
    decreases |segs|
  {
    if |segs| > 0 {
      assert segs[|segs| - 1] in segs;
      FoldNormal(rooted, segs[..|segs| - 1]);
      PushNormal(rooted, Fold(rooted, segs[..|segs| - 1]), segs[|segs| - 1]);
    }
  }

  lemma NormalSnoc(rooted: bool, front: seq<string>, seg: string)
    requires Normal(rooted, front + [seg])
    ensures Normal(rooted, front) && Push(rooted, front, seg) == front + [seg]
  {
    var stack := front + [seg];
    assert forall i | 0 <= i < |front| :: stack[i] == front[i];
    assert forall s | s in front :: s in stack;
    assert stack[|front|] == seg && seg in stack;
    if |front| > 0 && seg == ".." {
      assert stack[|front| - 1] == "..";
    }
  }

  lemma {:induction false} FoldOfNormal(rooted: bool, stack: seq<string>)
    requires Normal(rooted, stack)
    ensures Fold(rooted, stack) == stack
    decreases |stack|
  {
    hide Normal, Push;
    if |stack| > 0 {
      var front := stack[..|stack| - 1];
      assert stack == front + [stack[|stack| - 1]];
      NormalSnoc(rooted, front, stack[|stack| - 1]);
      FoldOfNormal(rooted, front);
    }
  }

  lemma {:induction false} FoldEmptyFirst(rooted: bool, segs: seq<string>)
    ensures Fold(rooted, [""] + segs) == Fold(rooted, segs)
    decreases |segs|
  {
    var all := [""] + segs;
    if |segs| == 0 {
      assert all[..0] == [];
      assert Fold(rooted, all[..0]) == [];
    } else {
      FoldEmptyFirst(rooted, segs[..|segs| - 1]);
      assert all[..|all| - 1] == [""] + segs[..|segs| - 1];
    }
  }

  lemma PlaceNormal(p: Path)
    ensures Normal(Rooted(p), Place(p))
  {
    SplitFree(p, '/');
    FoldNormal(Rooted(p), Split(p, '/'));
  }

  lemma PlaceOfRooted(stack: seq<string>)
    requires Normal(true, stack)
    ensures Place("/" + Join(stack, '/')) == stack
  {
    var text := Join(stack, '/');
    FoldOfNormal(true, stack);
    SplitFirst("", text, '/');
    assert "" + ['/'] + text == "/" + text;
    FoldEmptyFirst(true, Split(text, '/'));
    if |stack| > 0 {
      assert Free(stack, '/');
      SplitOfJoin(stack, '/');
    } else {
      assert Split("", '/') == [""];
      assert Fold(true, [""]) == Push(true, Fold(true, [""][..0]), "");
    }
    hide Split, Normal, Push;
  }

  lemma PlaceOfUnrooted(stack: seq<string>)
    requires Normal(false, stack) && |stack| > 0
    ensures !Rooted(Join(stack, '/')) && Place(Join(stack, '/')) == stack
  {
    FoldOfNormal(false, stack);
    assert Free(stack, '/');
    SplitOfJoin(stack, '/');
    FirstOfJoin(stack);
    hide Split, Normal, Push;
  }

  lemma PlaceOfDot()
    ensures Place(".") == []
  {
    SplitFirst(".", "", '/');
    assert Fold(false, ["."]) == Push(false, Fold(false, ["."][..0]), ".");
  }

  /** A normal stack is read back from its own path. */
  lemma PlaceOfRender(rooted: bool, stack: seq<string>)
    requires Normal(rooted, stack)
    ensures Rooted(Render(rooted, stack)) == rooted
    ensures Place(Render(rooted, stack)) == stack
  {
    hide Place, Normal;
    if rooted {
      PlaceOfRooted(stack);
    } else if |stack| > 0 {
      PlaceOfUnrooted(stack);
    } else {
      PlaceOfDot();
    }
  }

  lemma FirstOfJoin(stack: seq<string>)
    requires |stack| > 0 && (forall s | s in stack :: Plain(s))
    ensures |stack[0]| > 0 && |Join(stack, '/')| > 0 && Join(stack, '/')[0] == stack[0][0] && stack[0][0] != '/'
  {
    assert Plain(stack[0]);
    assert stack[0][0] in stack[0];
  }

  /** Cleaning keeps the place a path names and whether it is rooted; cleaning again changes nothing. */
  lemma CleanIdempotent(p: Path)
    ensures Rooted(Clean(p)) == Rooted(p) && Place(Clean(p)) == Place(p)
    ensures Clean(Clean(p)) == Clean(p)
  {
    PlaceNormal(p);
    PlaceOfRender(Rooted(p), Place(p));
  }

  /** Two paths clean to the same text exactly when they name the same place from the same start. */
  lemma CleanEqualIff(p: Path, q: Path)
    ensures Clean(p) == Clean(q) <==> Rooted(p) == Rooted(q) && Place(p) == Place(q)
  {
    CleanIdempotent(p);
    CleanIdempotent(q);
  }

  /** A cleaned rooted path has no empty, `.` or `..` segment after its first slash. */
  lemma CleanRootedSegments(p: Path)
    requires Rooted(p)
    ensures Clean(p) == "/" + Join(Place(p), '/')
    ensures forall s | s in Place(p) :: s != "" && s != "." && s != ".." && '/' !in s
  {
    PlaceNormal(p);
    forall s | s in Place(p)
      ensures s != ".."
    {
      var i :| 0 <= i < |Place(p)| && Place(p)[i] == s;
    }
  }

  // ----- Places, segment by segment -----

  lemma FoldSnoc(rooted: bool, segs: seq<string>, seg: string)
    ensures Fold(rooted, segs + [seg]) == Push(rooted, Fold(rooted, segs), seg)
  {
    assert (segs + [seg])[..|segs|] == segs;
  }

  /**
   What one more segment does to the place that a path names: `.` and nothing stay there, `..` goes
   one up (not above the root, and above the start of an unrooted path only by `..` itself), any other
   name goes one down. With PlaceStart this says what every path names.
   */
  lemma PlaceNext(p: Path, seg: string)
    requires p != "" && '/' !in seg
    ensures (p + "/" + seg)[0] == p[0]
    ensures
      var here, up := Place(p), Place(p + "/" + seg);
      if seg == "" || seg == "." then up == here
      else if seg != ".." then up == here + [seg]
      else if |here| > 0 && here[|here| - 1] != ".." then up + [here[|here| - 1]] == here
      else if p[0] == '/' then up == [] == here
      else up == here + [".."]
  {
    SplitConcat(p, seg, '/');
    SplitFirst(seg, "", '/');
    FoldSnoc(Rooted(p), Split(p, '/'), seg);
    assert p + ['/'] + seg == p + "/" + seg;
    PlaceNormal(p);
    var here := Place(p);
    assert Rooted(p) && |here| > 0 ==> here[|here| - 1] != "..";
  }

  lemma PlaceOfSegment(seg: string)
    requires '/' !in seg
    ensures Place(seg) == if seg == "" || seg == "." then [] else [seg]
  {
    SplitFirst(seg, "", '/');
    FoldSnoc(false, [], seg);
    assert [] + [seg] == [seg];
    hide Split;
  }

  lemma PlaceFromRoot(seg: string)
    requires '/' !in seg
    ensures Place("/" + seg) == if seg == "" || seg == "." || seg == ".." then [] else [seg]
  {
    SplitFirst("", seg, '/');
    SplitFirst(seg, "", '/');
    assert "" + ['/'] + seg == "/" + seg;
    hide Split;
    FoldEmptyFirst(true, [seg]);
    FoldSnoc(true, [], seg);
    assert [] + [seg] == [seg];
  }

  /** What the shortest paths name: a single segment, from the start or from the root. */
  lemma PlaceStart(seg: string)
    requires '/' !in seg
    ensures Place(seg) == if seg == "" || seg == "." then [] else [seg]
    ensures Place("/" + seg) == if seg == "" || seg == "." || seg == ".." then [] else [seg]
  {
    hide Place;
    PlaceOfSegment(seg);
    PlaceFromRoot(seg);
  }

  /** A cleaned unrooted path is its segments, or a dot when there are none. */
  lemma CleanUnrooted(p: Path)
    requires p == "" || p[0] != '/'
    ensures Clean(p) == if Place(p) == [] then "." else Join(Place(p), '/')
  {
  }

  // ----- The scan -----

  /** The fold from the left, starting at a stack. */
  function FoldFrom(rooted: bool, stack: seq<string>, segs: seq<string>): seq<string>
    decreases |segs|
  {
    if |segs| == 0 then stack else FoldFrom(rooted, Push(rooted, stack, segs[0]), segs[1..])
  }

  lemma {:induction false} FoldFromIsFold(rooted: bool, done: seq<string>, segs: seq<string>)
    ensures FoldFrom(rooted, Fold(rooted, done), segs) == Fold(rooted, done + segs)
    decreases |segs|
  {
    if |segs| == 0 {
      assert done + segs == done;
    } else {
      assert (done + [segs[0]])[..|done|] == done;
      FoldFromIsFold(rooted, done + [segs[0]], segs[1..]);
      assert done + [segs[0]] + segs[1..] == done + segs;
    }
  }

  /** What is left to do at position `r` of the scan, with the segments so far on `stack`. */
  function Remaining(p: Path, r: nat, stack: seq<string>): seq<string>
    requires r <= |p|
  {
    FoldFrom(Rooted(p), stack, Split(p[r..], '/'))
  }

  lemma ScanStart(p: Path)
    ensures Remaining(p, 0, []) == Place(p)
    ensures Rooted(p) ==> Remaining(p, 1, []) == Place(p)
  {
    assert p[0..] == p;
    FoldFromIsFold(Rooted(p), [], Split(p, '/'));
    assert [] + Split(p, '/') == Split(p, '/');
    if Rooted(p) {
      SlashSkipped(p, 0, []);
    }
  }

  lemma SlashSkipped(p: Path, r: nat, stack: seq<string>)
    requires r < |p| && p[r] == '/'
    ensures Remaining(p, r, stack) == Remaining(p, r + 1, stack)
  {
    SplitFirst("", p[r + 1..], '/');
    assert "" + ['/'] + p[r + 1..] == p[r..];
    assert ([""] + Split(p[r + 1..], '/'))[1..] == Split(p[r + 1..], '/');
  }

  /** A segment that runs to the next slash or to the end is pushed. */
  lemma SegmentRead(p: Path, r: nat, r': nat, stack: seq<string>)
    requires r <= r' <= |p| && '/' !in p[r..r'] && (r' == |p| || p[r'] == '/')
    ensures Remaining(p, r, stack) == Remaining(p, r', Push(Rooted(p), stack, p[r..r']))
  {
    var seg := p[r..r'];
    var next := Push(Rooted(p), stack, seg);
    if r' == |p| {
      SplitFirst(seg, "", '/');
      assert p[r..] == seg && p[r'..] == "";
      assert Split("", '/') == [""];
      assert FoldFrom(Rooted(p), next, [""]) == FoldFrom(Rooted(p), next, [""][1..]);
    } else {
      SplitFirst(seg, p[r' + 1..], '/');
      assert p[r..] == seg + ['/'] + p[r' + 1..];
      assert ([seg] + Split(p[r' + 1..], '/'))[1..] == Split(p[r' + 1..], '/');
      SlashSkipped(p, r', next);
    }
  }

  function Prefix(rooted: bool): string {
    if rooted then "/" else ""
  }

  /** The bytes written so far. */
  function Written(rooted: bool, stack: seq<string>): string {
    Prefix(rooted) + Join(stack, '/')
  }

  /** The leading `..` segments, below which the scan never backs up. */
  function Dots(stack: seq<string>): (k: nat)
    ensures k <= |stack|
  {
    if |stack| > 0 && stack[0] == ".." then 1 + Dots(stack[1..]) else 0
  }

  lemma {:induction false} DotsOfNormal(rooted: bool, stack: seq<string>)
    requires Normal(rooted, stack)
    ensures rooted ==> Dots(stack) == 0
    ensures |stack| > Dots(stack) <==> |stack| > 0 && stack[|stack| - 1] != ".."
    decreases |stack|
  {
    if |stack| > 0 {
      var rest := stack[1..];
      assert forall s | s in rest :: s in stack;
      DotsOfNormal(rooted, rest);
      assert stack[|stack| - 1] == ".." ==> stack[0] == "..";
    }
  }

  lemma {:induction false} DotsSnoc(stack: seq<string>, seg: string)
    ensures Dots(stack + [seg]) == if seg == ".." && Dots(stack) == |stack| then |stack| + 1 else Dots(stack)
    decreases |stack|
  {
    if |stack| == 0 {
      assert (stack + [seg])[1..] == [];
    } else {
      assert (stack + [seg])[1..] == stack[1..] + [seg];
      DotsSnoc(stack[1..], seg);
    }
  }

  /** How far the scan may back up. */
  function Floor(rooted: bool, stack: seq<string>): nat {
    |Prefix(rooted)| + |Join(stack[..Dots(stack)], '/')|
  }

  lemma WrittenAboveFloor(rooted: bool, stack: seq<string>)
    requires Normal(rooted, stack)
    ensures Floor(rooted, stack) <= |Written(rooted, stack)|
    ensures Floor(rooted, stack) < |Written(rooted, stack)| <==> |stack| > 0 && stack[|stack| - 1] != ".."
  {
    assert forall s | s in stack :: Plain(s) && |s| > 0;
    DotsOfNormal(rooted, stack);
    JoinPrefix(stack, Dots(stack), '/');
    assert stack[..|stack|] == stack;
  }

  /** Appending a segment, with a slash before it unless it is the first. */
  lemma WrittenSnoc(rooted: bool, stack: seq<string>, seg: string)
    requires Normal(rooted, stack)
    ensures Written(rooted, stack + [seg]) ==
            Written(rooted, stack) + (if |Written(rooted, stack)| != |Prefix(rooted)| then "/" else "") + seg
  {
    if |stack| == 0 {
      assert stack + [seg] == [seg];
    } else {
      FirstOfJoin(stack);
      JoinSnoc(stack, seg, '/');
    }
  }

  lemma FloorSnoc(rooted: bool, stack: seq<string>, seg: string)
    requires Normal(rooted, stack)
    ensures seg != ".." ==> Floor(rooted, stack + [seg]) == Floor(rooted, stack)
    ensures seg == ".." && !(|stack| > 0 && stack[|stack| - 1] != "..") ==>
            Floor(rooted, stack + [seg]) == |Written(rooted, stack + [seg])|
  {
    DotsSnoc(stack, seg);
    DotsOfNormal(rooted, stack);
    assert (stack + [seg])[..Dots(stack)] == stack[..Dots(stack)];
    assert (stack + [seg])[..|stack| + 1] == stack + [seg];
  }

  lemma NormalFront(rooted: bool, stack: seq<string>)
    requires Normal(rooted, stack) && |stack| > 0 && stack[|stack| - 1] != ".."
    ensures Normal(rooted, stack[..|stack| - 1])
    ensures Floor(rooted, stack[..|stack| - 1]) == Floor(rooted, stack)
  {
    var front := stack[..|stack| - 1];
    assert forall s | s in front :: s in stack;
    assert stack == front + [stack[|stack| - 1]];
    FloorSnoc(rooted, front, stack[|stack| - 1]);
  }

  /** Backs up over the last segment and the slash before it. */
  method BackUp(rooted: bool, out: string, dotdot: nat, ghost stack: seq<string>) returns (r: string)
    requires Normal(rooted, stack) && |stack| > 0 && stack[|stack| - 1] != ".."
    requires out == Written(rooted, stack) && dotdot == Floor(rooted, stack)
    ensures r == Written(rooted, stack[..|stack| - 1])
  {
    ghost var front, last := stack[..|stack| - 1], stack[|stack| - 1];
    assert stack == front + [last] && last in stack;
    NormalFront(rooted, stack);
    WrittenAboveFloor(rooted, front);
    WrittenSnoc(rooted, front, last);
    ghost var target := |Written(rooted, front)|;
    var w := |out| - 1;
    while w > dotdot && out[w] != '/'
      invariant target <= w < |out|
    {
      w := w - 1;
    }
    r := out[..w];
  }

  /** The scan is at position `r` with `out` written for the segments on `stack`. */
  predicate Scanning(p: Path, r: nat, out: string, dotdot: nat, stack: seq<string>) {
    && r <= |p| && Normal(Rooted(p), stack)
    && out == Written(Rooted(p), stack) && dotdot == Floor(Rooted(p), stack)
    && Remaining(p, r, stack) == Place(p)
  }

  lemma ScanDone(p: Path, out: string, dotdot: nat, stack: seq<string>)
    requires Scanning(p, |p|, out, dotdot, stack)
    ensures (if |out| == 0 then "." else out) == Clean(p)
  {
    assert p[|p|..] == "";
    assert Split("", '/') == [""];
    assert FoldFrom(Rooted(p), stack, [""]) == FoldFrom(Rooted(p), stack, [""][1..]);
    if |stack| > 0 {
      FirstOfJoin(stack);
    }
  }

  /** A pushed segment keeps the scan in step; `out'` is `out` with the segment appended. */
  lemma ScanPush(p: Path, r: nat, r': nat, out: string, dotdot: nat, stack: seq<string>)
    requires Scanning(p, r, out, dotdot, stack) && r < r' <= |p|
    requires '/' !in p[r..r'] && (r' == |p| || p[r'] == '/')
    requires Push(Rooted(p), stack, p[r..r']) == stack + [p[r..r']]
    ensures var out' := out + (if |out| != |Prefix(Rooted(p))| then "/" else "") + p[r..r'];
            Scanning(p, r', out', if p[r..r'] == ".." then |out'| else dotdot, stack + [p[r..r']])
  {
    var seg := p[r..r'];
    SegmentRead(p, r, r', stack);
    PushNormal(Rooted(p), stack, seg);
    WrittenSnoc(Rooted(p), stack, seg);
    FloorSnoc(Rooted(p), stack, seg);
  }

  /** Go's scan: one pass over the bytes with an output that it backs up over on `..`. */
  method CleanPath(p: Path) returns (r: Path)
    ensures r == Clean(p)
  {
    hide Written, Floor, Normal, Remaining, Place, Clean, Push;
    if p == "" {
      assert Clean("") == "." by { EmptyClean(); }
      return ".";
    }
    var rooted := p[0] == '/';
    var out: string, dotdot: nat, i: nat := "", 0, 0;
    ghost var stack: seq<string> := [];
    if rooted {
      out, dotdot, i := "/", 1, 1;
    }
    ScanBegins(p);
    while i < |p|
      invariant Scanning(p, i, out, dotdot, stack)
      decreases |p| - i
    {
      if p[i] == '/' {
        SlashSkipped(p, i, stack);
        i := i + 1;
      } else if p[i] == '.' && (i + 1 == |p| || p[i + 1] == '/') {
        DotSkipped(p, i, stack);
        i := i + 1;
      } else if p[i] == '.' && p[i + 1] == '.' && (i + 2 == |p| || p[i + 2] == '/') {
        assert DotDotAt(p, i);
        WrittenAboveFloor(rooted, stack);
        if |out| > dotdot {
          out := BackUp(rooted, out, dotdot, stack);
          ScanPop(p, i, stack);
          stack := stack[..|stack| - 1];
        } else if !rooted {
          ScanDots(p, i, out, dotdot, stack);
          if |out| > 0 {
            out := out + "/";
          }
          out := out + "..";
          dotdot := |out|;
          stack := stack + [".."];
        } else {
          RootedDots(p, i, stack);
        }
        i := i + 2;
      } else {
        var start := i;
        ghost var before := out;
        if (rooted && |out| != 1) || (!rooted && |out| != 0) {
          out := out + "/";
        }
        ghost var base := out;
        while i < |p| && p[i] != '/'
          invariant start <= i <= |p| && out == base + p[start..i]
          invariant '/' !in p[start..i]
        {
          out := out + [p[i]];
          i := i + 1;
        }
        ScanName(p, start, i, before, dotdot, stack);
        stack := stack + [p[start..i]];
      }
    }
    ScanDone(p, out, dotdot, stack);
    return if |out| == 0 then "." else out;
  }

  lemma EmptyClean()
    ensures Clean("") == "."
  {
    assert Split("", '/') == [""];
    assert Fold(false, [""]) == Push(false, Fold(false, [""][..0]), "");
  }

  lemma ScanBegins(p: Path)
    requires p != ""
    ensures Scanning(p, |Prefix(Rooted(p))|, Prefix(Rooted(p)), |Prefix(Rooted(p))|, [])
  {
    ScanStart(p);
  }

  predicate DotAt(p: Path, i: nat) {
    i < |p| && p[i] == '.' && (i + 1 == |p| || p[i + 1] == '/')
  }

  predicate DotDotAt(p: Path, i: nat) {
    i + 1 < |p| && p[i] == '.' && p[i + 1] == '.' && (i + 2 == |p| || p[i + 2] == '/')
  }

  lemma DotSkipped(p: Path, i: nat, stack: seq<string>)
    requires DotAt(p, i)
    ensures Remaining(p, i, stack) == Remaining(p, i + 1, stack)
  {
    assert p[i..i + 1] == ".";
    SegmentRead(p, i, i + 1, stack);
  }

  lemma ScanPop(p: Path, i: nat, stack: seq<string>)
    requires DotDotAt(p, i)
    requires Normal(Rooted(p), stack) && |stack| > 0 && stack[|stack| - 1] != ".."
    ensures Remaining(p, i, stack) == Remaining(p, i + 2, stack[..|stack| - 1])
    ensures Normal(Rooted(p), stack[..|stack| - 1])
    ensures Floor(Rooted(p), stack[..|stack| - 1]) == Floor(Rooted(p), stack)
  {
    assert p[i..i + 2] == "..";
    SegmentRead(p, i, i + 2, stack);
    NormalFront(Rooted(p), stack);
  }

  lemma ScanDots(p: Path, i: nat, out: string, dotdot: nat, stack: seq<string>)
    requires Scanning(p, i, out, dotdot, stack) && !Rooted(p)
    requires DotDotAt(p, i)
    requires |stack| == 0 || stack[|stack| - 1] == ".."
    ensures var out' := (if |out| > 0 then out + "/" else out) + "..";
            Scanning(p, i + 2, out', |out'|, stack + [".."])
  {
    assert p[i..i + 2] == "..";
    ScanPush(p, i, i + 2, out, dotdot, stack);
    assert out + "" == out;
  }

  lemma RootedDots(p: Path, i: nat, stack: seq<string>)
    requires DotDotAt(p, i)
    requires Rooted(p) && (|stack| == 0 || stack[|stack| - 1] == "..")
    ensures Remaining(p, i, stack) == Remaining(p, i + 2, stack)
  {
    assert p[i..i + 2] == "..";
    SegmentRead(p, i, i + 2, stack);
  }

  lemma ScanName(p: Path, i: nat, j: nat, out: string, dotdot: nat, stack: seq<string>)
    requires Scanning(p, i, out, dotdot, stack) && i < j <= |p|
    requires '/' !in p[i..j] && (j == |p| || p[j] == '/')
    requires !DotAt(p, i) && !DotDotAt(p, i)
    ensures var out' := (if |out| != |Prefix(Rooted(p))| then out + "/" else out) + p[i..j];
            Scanning(p, j, out', dotdot, stack + [p[i..j]])
  {
    assert p[i..j][0] == p[i];
    assert p[i..j] == "." ==> j == i + 1;
    assert |p[i..j]| == 2 ==> j == i + 2 && p[i..j][1] == p[i + 1];
    ScanPush(p, i, j, out, dotdot, stack);
    assert out + "" == out;
  }
}

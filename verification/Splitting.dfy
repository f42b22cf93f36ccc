/** Splitting a sequence at a separator and joining it back, as Go's bytes.Split and bytes.Join do. */
module Splitting {
  /** The pieces between separators: always one more than there are separators. */
  function Split<T(==)>(s: seq<T>, sep: T): (pieces: seq<seq<T>>)
    ensures |pieces| > 0
    decreases |s|
  {
    if |s| == 0 then [[]]
    else
      var rest := Split(s[1..], sep);
      if s[0] == sep then [[]] + rest
      else [[s[0]] + rest[0]] + rest[1..]
  }

  function Join<T>(pieces: seq<seq<T>>, sep: T): seq<T>
    decreases |pieces|
  {
    if |pieces| == 0 then []
    else if |pieces| == 1 then pieces[0]
    else pieces[0] + [sep] + Join(pieces[1..], sep)
  }

  predicate Free<T(==)>(pieces: seq<seq<T>>, sep: T) {
    forall p | p in pieces :: sep !in p
  }

  lemma {:induction false} SplitFree<T>(s: seq<T>, sep: T)
    ensures Free(Split(s, sep), sep)
    decreases |s|
  {
    if |s| > 0 {
      SplitFree(s[1..], sep);
      var rest := Split(s[1..], sep);
      assert rest[0] in rest;
    }
  }

  lemma JoinCons<T>(head: seq<T>, rest: seq<seq<T>>, sep: T)
    ensures Join([head] + rest, sep) == if |rest| == 0 then head else head + ([sep] + Join(rest, sep))
  {
    assert ([head] + rest)[1..] == rest;
    if |rest| > 0 {
      assert head + [sep] + Join(rest, sep) == head + ([sep] + Join(rest, sep));
    }
  }

  lemma JoinFirst<T>(x: T, head: seq<T>, rest: seq<seq<T>>, sep: T)
    ensures Join([[x] + head] + rest, sep) == [x] + Join([head] + rest, sep)
  {
    JoinCons([x] + head, rest, sep);
    JoinCons(head, rest, sep);
    var tail := [sep] + Join(rest, sep);
    assert ([x] + head) + tail == [x] + (head + tail);
  }

  lemma JoinEmptyFirst<T>(pieces: seq<seq<T>>, sep: T)
    requires |pieces| > 0
    ensures Join([[]] + pieces, sep) == [sep] + Join(pieces, sep)
  {
    assert ([[]] + pieces)[1..] == pieces;
  }

  /** Splitting is lossless. */
  lemma {:induction false} JoinOfSplit<T>(s: seq<T>, sep: T)
    ensures Join(Split(s, sep), sep) == s
    decreases |s|
  {
    if |s| > 0 {
      JoinOfSplit(s[1..], sep);
      JoinEmptyFirst(Split(s[1..], sep), sep);
      var rest := Split(s[1..], sep);
      JoinFirst(s[0], rest[0], rest[1..], sep);
      assert [rest[0]] + rest[1..] == rest;
      assert [s[0]] + s[1..] == s;
    }
  }

  /** The first piece ends at the first separator. */
  lemma {:induction false} SplitFirst<T>(p: seq<T>, rest: seq<T>, sep: T)
    requires sep !in p
    ensures Split(p, sep) == [p]
    ensures Split(p + [sep] + rest, sep) == [p] + Split(rest, sep)
    decreases |p|
  {
    var s := p + [sep] + rest;
    if |p| == 0 {
      assert s[1..] == rest;
    } else {
      assert p[0] in p && sep !in p[1..];
      SplitFirst(p[1..], rest, sep);
      assert s[1..] == p[1..] + [sep] + rest;
      assert [p[0]] + p[1..] == p;
      var tail := Split(s[1..], sep);
      assert tail[0] == p[1..] && tail[1..] == Split(rest, sep);
    }
  }

  /** Joining is undone by splitting when no piece holds a separator. */
  lemma {:induction false} SplitOfJoin<T>(pieces: seq<seq<T>>, sep: T)
    requires |pieces| > 0 && Free(pieces, sep)
    ensures Split(Join(pieces, sep), sep) == pieces
    decreases |pieces|
  {
    assert pieces[0] in pieces;
    if |pieces| == 1 {
      SplitFirst(pieces[0], [], sep);
      assert pieces == [pieces[0]];
    } else {
      var rest := pieces[1..];
      assert Free(rest, sep) by {
        assert forall p | p in rest :: p in pieces;
      }
      SplitFirst(pieces[0], Join(rest, sep), sep);
      SplitOfJoin(rest, sep);
      assert [pieces[0]] + rest == pieces;
    }
  }

  lemma {:induction false} JoinSnoc<T>(pieces: seq<seq<T>>, last: seq<T>, sep: T)
    requires |pieces| > 0
    ensures Join(pieces + [last], sep) == Join(pieces, sep) + [sep] + last
    decreases |pieces|
  {
    if |pieces| == 1 {
      assert (pieces + [last])[1..] == [last];
    } else {
      JoinSnoc(pieces[1..], last, sep);
      assert (pieces + [last])[1..] == pieces[1..] + [last];
    }
  }

  /** A prefix of the pieces joins to a prefix of the text, which goes on with a separator. */
  lemma {:induction false} JoinPrefix<T>(pieces: seq<seq<T>>, k: nat, sep: T)
    requires k <= |pieces| && forall p | p in pieces :: |p| > 0
    ensures |Join(pieces[..k], sep)| <= |Join(pieces, sep)|
    ensures k < |pieces| ==> |Join(pieces[..k], sep)| < |Join(pieces, sep)|
    decreases |pieces| - k
  {
    if k == |pieces| {
      assert pieces[..k] == pieces;
    } else {
      JoinPrefix(pieces, k + 1, sep);
      assert pieces[..k + 1] == pieces[..k] + [pieces[k]];
      assert pieces[k] in pieces;
      if k == 0 {
        assert pieces[..1] == [pieces[0]];
      } else {
        JoinSnoc(pieces[..k], pieces[k], sep);
      }
    }
  }

  lemma AppendToRest<T>(head: seq<T>, rest: seq<seq<T>>, tail: seq<seq<T>>)
    requires |rest| > 0
    ensures [[]] + (rest + tail) == ([[]] + rest) + tail
    ensures [head + (rest + tail)[0]] + (rest + tail)[1..] == ([head + rest[0]] + rest[1..]) + tail
  {
    assert (rest + tail)[1..] == rest[1..] + tail;
  }

  /** A separator between two texts separates their pieces. */
  lemma {:induction false} SplitConcat<T>(a: seq<T>, b: seq<T>, sep: T)
    ensures Split(a + [sep] + b, sep) == Split(a, sep) + Split(b, sep)
    decreases |a|
  {
    var s := a + [sep] + b;
    if |a| == 0 {
      assert s[1..] == b;
    } else {
      SplitConcat(a[1..], b, sep);
      assert s[1..] == a[1..] + [sep] + b;
      AppendToRest([a[0]], Split(a[1..], sep), Split(b, sep));
    }
  }

  /** Text without a separator, put in front, goes to the first piece. */
  lemma {:induction false} SplitPrepend<T>(a: seq<T>, s: seq<T>, sep: T)
    requires sep !in a
    ensures Split(a + s, sep) == [a + Split(s, sep)[0]] + Split(s, sep)[1..]
    decreases |a|
  {
    var pieces := Split(s, sep);
    if |a| == 0 {
      assert a + s == s && a + pieces[0] == pieces[0];
      assert [pieces[0]] + pieces[1..] == pieces;
    } else {
      SplitPrepend(a[1..], s, sep);
      assert (a + s)[1..] == a[1..] + s;
      assert a[0] in a;
      assert [a[0]] + (a[1..] + pieces[0]) == a + pieces[0];
    }
  }

  lemma JoinPrepend<T>(a: seq<T>, head: seq<T>, rest: seq<seq<T>>, sep: T)
    ensures Join([a + head] + rest, sep) == a + Join([head] + rest, sep)
  {
    JoinCons(a + head, rest, sep);
    JoinCons(head, rest, sep);
    if |rest| > 0 {
      var tail := [sep] + Join(rest, sep);
      assert (a + head) + tail == a + (head + tail);
    }
  }
}

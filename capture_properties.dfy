/**
  What a capture run does, proved about the specification of a run in module
  `Capture`: when the loop stops, what each iteration emits and in which order, which
  names are written, and when the program as written indexes past the end of a
  calibration list.
 */
module CaptureProperties {
  import opened Wrappers
  import opened Naming
  import opened Capture

  // ---------------------------------------------------------------------------
  // Where the loop stops

  /** Without a user close, the loop stops exactly at its bound. */
  lemma {:induction false} StopsAtBoundWithoutClose(userCloses: nat -> bool, bound: nat, p: nat)
    requires p <= bound
    requires forall q :: p < q < bound ==> !userCloses(q)
    ensures FramesCaptured(userCloses, bound, p) == bound
    decreases bound - p
  {
    if p < bound && !userCloses(p + 1) {
      StopsAtBoundWithoutClose(userCloses, bound, p + 1);
    }
  }

  /** A user close while frame `q` is presented stops the loop with index `q`, if none came earlier. */
  lemma {:induction false} StopsAtFirstClose(userCloses: nat -> bool, bound: nat, p: nat, q: nat)
    requires p < q <= bound && userCloses(q)
    requires forall r :: p < r < q ==> !userCloses(r)
    ensures FramesCaptured(userCloses, bound, p) == q
    decreases q - p
  {
    if p + 1 < q {
      StopsAtFirstClose(userCloses, bound, p + 1, q);
    }
  }

  /**
    A loop bounded above `m` gets past index `m` exactly when the user does not close
    the window while any of the frames `p + 1` .. `m` is presented.
   */
  lemma {:induction false} PassesIndex(userCloses: nat -> bool, bound: nat, p: nat, m: nat)
    requires p <= m < bound
    ensures FramesCaptured(userCloses, bound, p) > m <==> forall q :: p < q <= m ==> !userCloses(q)
    decreases m - p
  {
    if p < m && !userCloses(p + 1) {
      PassesIndex(userCloses, bound, p + 1, m);
    }
  }

  // ---------------------------------------------------------------------------
  // What the iterations emit

  /**
    Iteration `i` emits, in this order, one render of camera `i`, one read-back of the
    whole window, and one write of that read-back under the name of index `i` with the
    window size, whatever camera `i`'s own resolution is.
   */
  lemma TraceAt(env: Environment, k: nat, i: nat)
    requires i < k <= |env.intrinsics| && k <= |env.extrinsics|
    ensures |Trace(env, k)| == 3 * k
    ensures Trace(env, k)[3 * i] == Rendered(Camera(env.extrinsics[i], env.intrinsics[i]))
    ensures Trace(env, k)[3 * i + 1] == ScreenShotTaken(0, 0, WindowWidth(env), WindowHeight(env))
    ensures Trace(env, k)[3 * i + 2] ==
              ImageWritten(OutputFileName(i), WindowWidth(env), WindowHeight(env),
                           Region(env.framebuffer, Camera(env.extrinsics[i], env.intrinsics[i]),
                                  0, 0, WindowWidth(env), WindowHeight(env)))
  {
    TraceSlice(env, k, i);
    var t := Trace(env, k);
    assert t[3 * i] == t[3 * i..3 * i + 3][0];
    assert t[3 * i + 1] == t[3 * i..3 * i + 3][1];
    assert t[3 * i + 2] == t[3 * i..3 * i + 3][2];
  }

  /** The events of iteration `i` stand at positions 3i .. 3i + 2 of the trace. */
  lemma {:induction false} TraceSlice(env: Environment, k: nat, i: nat)
    requires i < k <= |env.intrinsics| && k <= |env.extrinsics|
    ensures |Trace(env, k)| == 3 * k
    ensures Trace(env, k)[3 * i..3 * i + 3] == Iteration(env, i)
  {
    TraceLength(env, k - 1);
    var t, it := Trace(env, k - 1), Iteration(env, k - 1);
    assert Trace(env, k) == t + it;
    if i < k - 1 {
      TraceSlice(env, k - 1, i);
      assert (t + it)[3 * i..3 * i + 3] == t[3 * i..3 * i + 3];
    } else {
      assert (t + it)[3 * i..3 * i + 3] == it;
    }
  }

  lemma {:induction false} TraceLength(env: Environment, k: nat)
    requires k <= |env.intrinsics| && k <= |env.extrinsics|
    ensures |Trace(env, k)| == 3 * k
  {
    if k > 0 {
      TraceLength(env, k - 1);
    }
  }

  /**
    Every read-back requests the region (0, 0, W, H) of the window, which fills the
    W * H * 3-byte buffer exactly, and every write passes W, H and W * H * 3 bytes,
    where W and H are the first intrinsic's size.
   */
  lemma {:induction false} WindowSizeEverywhere(env: Environment, k: nat)
    requires 0 < |env.intrinsics| && k <= |env.intrinsics| && k <= |env.extrinsics|
    ensures forall e :: e in Trace(env, k) && e.ScreenShotTaken? ==>
              e == ScreenShotTaken(0, 0, WindowWidth(env), WindowHeight(env))
    ensures forall e :: e in Trace(env, k) && e.ImageWritten? ==>
              e.width == WindowWidth(env) && e.height == WindowHeight(env) &&
              |e.data| == WindowWidth(env) * WindowHeight(env) * 3
  {
    if k > 0 {
      WindowSizeEverywhere(env, k - 1);
      assert Trace(env, k) == Trace(env, k - 1) + Iteration(env, k - 1);
    }
  }

  lemma {:induction false} WrittenNamesAppend(a: seq<Event>, b: seq<Event>)
    ensures WrittenNames(a + b) == WrittenNames(a) + WrittenNames(b)
    decreases |b|
  {
    if b == [] {
      assert a + b == a;
    } else {
      var b' := b[..|b| - 1];
      assert (a + b)[..|a + b| - 1] == a + b';
      WrittenNamesAppend(a, b');
    }
  }

  /** The first `k` iterations write the names of indices 0 .. k - 1, in order. */
  lemma {:induction false} TraceWrittenNames(env: Environment, k: nat)
    requires k <= |env.intrinsics| && k <= |env.extrinsics|
    ensures WrittenNames(Trace(env, k)) == ExpectedNames(k)
  {
    if k > 0 {
      TraceWrittenNames(env, k - 1);
      var it := Iteration(env, k - 1);
      WrittenNamesAppend(Trace(env, k - 1), it);
      assert it == [it[0]] + [it[1]] + [it[2]];
      WrittenNamesAppend([it[0]] + [it[1]], [it[2]]);
      WrittenNamesAppend([it[0]], [it[1]]);
      assert WrittenNames([it[0]]) == [] by {
        assert [it[0]][..0] == [];
      }
      assert WrittenNames([it[1]]) == [] by {
        assert [it[1]][..0] == [];
      }
      assert WrittenNames([it[2]]) == [OutputFileName(k - 1)] by {
        assert [it[2]][..0] == [];
      }
    }
  }

  /** The names a run writes, with the window-opening event in front. */
  lemma RunWrittenNames(env: Environment, k: nat)
    requires 0 < |env.intrinsics| && k <= |env.intrinsics| && k <= |env.extrinsics|
    ensures WrittenNames([WindowOpened(WindowWidth(env), WindowHeight(env))] + Trace(env, k)) ==
            ExpectedNames(k)
  {
    var w := [WindowOpened(WindowWidth(env), WindowHeight(env))];
    WrittenNamesAppend(w, Trace(env, k));
    assert w[..0] == [];
    TraceWrittenNames(env, k);
  }

  /** No two images of one run share a file name. */
  lemma ExpectedNamesDistinct(k: nat)
    ensures forall i, j :: 0 <= i < j < k ==> ExpectedNames(k)[i] != ExpectedNames(k)[j]
  {
    forall i, j | 0 <= i < j < k
      ensures ExpectedNames(k)[i] != ExpectedNames(k)[j]
    {
      OutputFileNameInjective(i, j);
    }
  }

  // ---------------------------------------------------------------------------
  // Whole runs

  /**
    Whatever the user does, a run writes the names of cameras 0, 1, ... in order and
    never more than `bound` of them: the names are a prefix of the full sequence.
   */
  lemma WrittenNamesArePrefix(env: Environment, bound: nat)
    ensures var names := WrittenNames(ExpectedRun(env, bound).1);
            |names| <= bound && names == ExpectedNames(bound)[..|names|]
  {
    if |env.intrinsics| > 0 && |env.extrinsics| > 0 {
      var w := [WindowOpened(WindowWidth(env), WindowHeight(env))];
      if env.contextError.Some? {
        assert w[..0] == [];
      } else {
        var k := FramesCaptured(env.userCloses, bound, 0);
        var m := Min(|env.intrinsics|, |env.extrinsics|);
        var j := if k <= m then k else m;
        RunWrittenNames(env, j);
      }
    }
  }

  /**
    With equally long calibration lists and no user close, the program as written
    completes and writes exactly one image per camera, in camera order.
   */
  lemma FullRunWritesEveryImage(env: Environment)
    requires 0 < |env.intrinsics| == |env.extrinsics|
    requires env.contextError.None?
    requires forall q :: 0 < q < |env.intrinsics| ==> !env.userCloses(q)
    ensures ExpectedRun(env, AsWrittenBound(env)).0 == Completed
    ensures WrittenNames(ExpectedRun(env, AsWrittenBound(env)).1) == ExpectedNames(|env.intrinsics|)
  {
    StopsAtBoundWithoutClose(env.userCloses, AsWrittenBound(env), 0);
    RunWrittenNames(env, |env.intrinsics|);
  }

  /**
    A user close while frame `q` is presented, with no earlier close, ends the run
    after exactly `q` images, within the range of both lists.
   */
  lemma EarlyCloseWritesPrefix(env: Environment, bound: nat, q: nat)
    requires 0 < |env.intrinsics| && 0 < |env.extrinsics| && env.contextError.None?
    requires 0 < q <= bound && q <= |env.intrinsics| && q <= |env.extrinsics|
    requires env.userCloses(q) && forall r :: 0 < r < q ==> !env.userCloses(r)
    ensures ExpectedRun(env, bound).0 == Completed
    ensures WrittenNames(ExpectedRun(env, bound).1) == ExpectedNames(q)
  {
    StopsAtFirstClose(env.userCloses, bound, 0, q);
    RunWrittenNames(env, q);
  }

  /**
    The program as written indexes past the end of a calibration list exactly when the
    two lists have different lengths and the user does not close the window before the
    loop reaches the shorter length.
   */
  lemma AsWrittenOverrunsIff(env: Environment)
    ensures ExpectedRun(env, AsWrittenBound(env)).0.IndexOutOfRange? <==>
              && 0 < |env.intrinsics| && 0 < |env.extrinsics|
              && env.contextError.None?
              && |env.intrinsics| != |env.extrinsics|
              && forall q :: 0 < q <= Min(|env.intrinsics|, |env.extrinsics|) ==> !env.userCloses(q)
  {
    var m := Min(|env.intrinsics|, |env.extrinsics|);
    var bound := AsWrittenBound(env);
    if m < bound {
      PassesIndex(env.userCloses, bound, 0, m);
    }
  }

  /** One concrete overrun: two intrinsics, one extrinsic, the user never closes. */
  lemma AsWrittenOverrunExample(i0: Intrinsic, i1: Intrinsic, e0: Extrinsic, fb: Framebuffer)
    ensures var env := Environment([i0, i1], [e0], None, fb, _ => false);
            ExpectedRun(env, AsWrittenBound(env)).0 == IndexOutOfRange(1)
  {
  }

  /**
    With the loop bounded by the smaller count and no user close, every pair of
    calibration entries is captured, in order, and nothing is indexed out of range.
   */
  lemma CorrectedWritesEveryPair(env: Environment)
    requires 0 < |env.intrinsics| && 0 < |env.extrinsics| && env.contextError.None?
    requires forall q :: 0 < q < CorrectedBound(env) ==> !env.userCloses(q)
    ensures ExpectedRun(env, CorrectedBound(env)).0 == Completed
    ensures WrittenNames(ExpectedRun(env, CorrectedBound(env)).1) == ExpectedNames(CorrectedBound(env))
  {
    StopsAtBoundWithoutClose(env.userCloses, CorrectedBound(env), 0);
    RunWrittenNames(env, CorrectedBound(env));
  }
}

/**
 * Backend discovery and selection (pibooth/camera/__init__.py).
 *
 * find_camera probes the four camera families, picks one driver by a fixed
 * priority, and releases the proxies it does not keep through close_proxy.
 * Both are pure here: the probes are a function from family to an optional
 * proxy handle, and what the selection does to the hardware is an ordered
 * event log (probe calls, then quit calls on released proxies).
 */
module CameraSelector {
  import opened Wrappers

  /** The four camera families, named after the libraries that drive them. */
  datatype Backend = Picamera | Picamera2 | GPhoto2 | OpenCV

  /** The driver find_camera returns, with the proxy handles it owns. */
  datatype Driver<H> =
    | Rpi(proxy: H)
    | Rpi2(proxy: H)
    | Gp(proxy: H)
    | Cv(proxy: H)
    | HybridRpi(preview: H, capture: H)
    | HybridCv(preview: H, capture: H)

  /**
   * What the selection does, in order: a probe of one family, or the
   * `quit()` of a driver of class `backend` wrapped around `handle`.
   */
  datatype Event<H> = Probe(backend: Backend) | Quit(backend: Backend, handle: H)

  /**
   * NoCameraFound is the EnvironmentError of the last line of find_camera;
   * WrongArgumentCount is the TypeError Python raises when close_proxy is
   * called with other than four positional arguments.
   */
  datatype Error = NoCameraFound | WrongArgumentCount

  datatype Outcome<H> = Outcome(events: seq<Event<H>>, result: Result<Driver<H>, Error>)

  /** The order in which find_camera calls the four probes. */
  const ProbeOrder: seq<Backend> := [Picamera, Picamera2, GPhoto2, OpenCV]

  /** The driver class close_proxy uses for each of its four parameter positions. */
  const CloseProxySlots: seq<Backend> := [Picamera, Picamera2, GPhoto2, OpenCV]

  function SlotOf(b: Backend): (i: nat)
    ensures i < |CloseProxySlots| && CloseProxySlots[i] == b
  {
    match b
    case Picamera => 0
    case Picamera2 => 1
    case GPhoto2 => 2
    case OpenCV => 3
  }

  /** One guarded call of close_proxy: quit the proxy through class `b` if it is there. */
  function QuitIf<H>(b: Backend, proxy: Option<H>): (r: seq<Event<H>>)
    ensures |r| <= 1 && (r == [] <==> proxy.None?)
  {
    if proxy.Some? then [Quit(b, proxy.value)] else []
  }

  /**
   * close_proxy(rpi, rpi2, gp, cv): each present argument is quit through the
   * driver class of its position, in position order; absent ones are skipped.
   * A call with a number of arguments other than four raises before any quit.
   */
  function CloseProxy<H>(args: seq<Option<H>>): (r: Result<seq<Event<H>>, Error>)
    ensures r.Failure? <==> |args| != 4
    ensures r.Failure? ==> r.error == WrongArgumentCount
  {
    if |args| != 4 then Failure(WrongArgumentCount)
    else
      Success(QuitIf(Picamera, args[0]) + QuitIf(Picamera2, args[1])
              + QuitIf(GPhoto2, args[2]) + QuitIf(OpenCV, args[3]))
  }

  /**
   * A four-argument close_proxy call quits only present arguments, each
   * through the class of its position; quits every present argument; and
   * does so in position order.
   */
  lemma CloseProxyQuitsPresentArgumentsInOrder<H>(args: seq<Option<H>>)
    requires |args| == 4
    ensures var quits := CloseProxy(args).value;
      && (forall k :: 0 <= k < |quits| ==>
            quits[k].Quit? && args[SlotOf(quits[k].backend)] == Some(quits[k].handle))
      && (forall i :: 0 <= i < 4 && args[i].Some? ==> Quit(CloseProxySlots[i], args[i].value) in quits)
      && (forall j, k :: 0 <= j < k < |quits| ==> SlotOf(quits[j].backend) < SlotOf(quits[k].backend))
  {
    var quits := CloseProxy(args).value;
    forall k | 0 <= k < |quits|
      ensures quits[k].Quit? && args[SlotOf(quits[k].backend)] == Some(quits[k].handle)
    {
      QuitAt(args, k);
    }
    forall j, k | 0 <= j < k < |quits|
      ensures SlotOf(quits[j].backend) < SlotOf(quits[k].backend)
    {
      QuitAt(args, j);
      QuitAt(args, k);
    }
  }

  /** The number of present arguments among the first `n`. */
  function PresentBefore<H>(args: seq<Option<H>>, n: nat): nat
    requires n <= |args|
  {
    if n == 0 then 0 else PresentBefore(args, n - 1) + (if args[n - 1].Some? then 1 else 0)
  }

  /** The k-th quit of close_proxy is the quit of the argument in some slot, with the quits before it all from earlier slots. */
  lemma QuitAt<H>(args: seq<Option<H>>, k: nat)
    requires |args| == 4 && k < |CloseProxy(args).value|
    ensures var q := CloseProxy(args).value[k];
      && q.Quit? && args[SlotOf(q.backend)] == Some(q.handle)
      && PresentBefore(args, SlotOf(q.backend)) == k
  {
    var q0, q1, q2, q3 := QuitIf(Picamera, args[0]), QuitIf(Picamera2, args[1]),
                          QuitIf(GPhoto2, args[2]), QuitIf(OpenCV, args[3]);
    var quits := q0 + q1 + q2 + q3;
    assert PresentBefore(args, 0) == 0;
    assert PresentBefore(args, 1) == |q0|;
    assert PresentBefore(args, 2) == |q0| + |q1|;
    assert PresentBefore(args, 3) == |q0| + |q1| + |q2|;
    if k < |q0| {
      assert quits[k] == q0[k];
    } else if k < |q0| + |q1| {
      assert quits[k] == q1[k - |q0|];
    } else if k < |q0| + |q1| + |q2| {
      assert quits[k] == q2[k - |q0| - |q1|];
    } else {
      assert quits[k] == q3[k - |q0| - |q1| - |q2|];
    }
  }

  /** One returning branch: the close_proxy call, and the driver if that call did not raise. */
  function Finish<H>(probed: seq<Event<H>>, closing: Result<seq<Event<H>>, Error>, driver: Driver<H>): Outcome<H>
  {
    match closing
    case Success(quits) => Outcome(probed + quits, Success(driver))
    case Failure(e) => Outcome(probed, Failure(e))
  }

  /** The four probe calls, in ProbeOrder. */
  function Probes<H>(): seq<Event<H>>
  {
    [Probe(Picamera), Probe(Picamera2), Probe(GPhoto2), Probe(OpenCV)]
  }

  /** The (family, proxy) pairs the returned driver owns. */
  function Owned<H>(d: Driver<H>): seq<(Backend, H)>
  {
    match d
    case Rpi(h) => [(Picamera, h)]
    case Rpi2(h) => [(Picamera2, h)]
    case Gp(h) => [(GPhoto2, h)]
    case Cv(h) => [(OpenCV, h)]
    case HybridRpi(p, c) => [(Picamera, p), (GPhoto2, c)]
    case HybridCv(p, c) => [(OpenCV, p), (GPhoto2, c)]
  }

  /**
   * find_camera, argument positions as written: the gPhoto2-only branch passes
   * (rpi, None, cv, rpi2) and the Picamera2 branch passes only three arguments.
   * All four probes run first, in ProbeOrder, before any branch is taken.
   */
  function FindCamera<H>(probe: Backend -> Option<H>): (o: Outcome<H>)
    ensures |o.events| >= 4 && o.events[..4] == Probes()
  {
    var rpi := probe(Picamera);
    var rpi2 := probe(Picamera2);
    var gp := probe(GPhoto2);
    var cv := probe(OpenCV);
    var probed := Probes();
    if rpi.Some? && gp.Some? then
      Finish(probed, CloseProxy([None, rpi2, None, cv]), HybridRpi(rpi.value, gp.value))
    else if cv.Some? && gp.Some? then
      Finish(probed, CloseProxy([rpi, rpi2, None, None]), HybridCv(cv.value, gp.value))
    else if gp.Some? then
      Finish(probed, CloseProxy([rpi, None, cv, rpi2]), Gp(gp.value))
    else if rpi.Some? then
      Finish(probed, CloseProxy([None, rpi2, gp, cv]), Rpi(rpi.value))
    else if rpi2.Some? then
      Finish(probed, CloseProxy([rpi, gp, cv]), Rpi2(rpi2.value))
    else if cv.Some? then
      Finish(probed, CloseProxy([rpi, rpi2, gp, None]), Cv(cv.value))
    else
      Outcome(probed, Failure(NoCameraFound))
  }

  /** Every event after the probes of a returning branch is a quit of a present close_proxy argument. */
  lemma FinishQuitsOnly<H>(args: seq<Option<H>>, d: Driver<H>)
    requires |args| == 4
    ensures var events := Finish(Probes(), CloseProxy(args), d).events;
      forall k :: 4 <= k < |events| ==> events[k].Quit? && args[SlotOf(events[k].backend)] == Some(events[k].handle)
  {
    var quits := CloseProxy(args).value;
    var events := Probes() + quits;
    CloseProxyQuitsPresentArgumentsInOrder(args);
    forall k | 4 <= k < |events|
      ensures events[k].Quit? && args[SlotOf(events[k].backend)] == Some(events[k].handle)
    {
      assert events[k] == quits[k - 4];
    }
  }

  /**
   * After the four probes, find_camera only quits proxies, and a returned
   * driver owns exactly the proxies its families' probes produced.
   */
  lemma ProbesThenQuitsThenDriver<H>(probe: Backend -> Option<H>)
    ensures var o := FindCamera(probe);
      && (forall k :: 4 <= k < |o.events| ==> o.events[k].Quit?)
      && (o.result.Success? ==>
            forall k :: 0 <= k < |Owned(o.result.value)| ==>
              probe(Owned(o.result.value)[k].0) == Some(Owned(o.result.value)[k].1))
  {
    var rpi, rpi2, gp, cv := probe(Picamera), probe(Picamera2), probe(GPhoto2), probe(OpenCV);
    if rpi.Some? && gp.Some? {
      FinishQuitsOnly([None, rpi2, None, cv], HybridRpi(rpi.value, gp.value));
    } else if cv.Some? && gp.Some? {
      FinishQuitsOnly([rpi, rpi2, None, None], HybridCv(cv.value, gp.value));
    } else if gp.Some? {
      FinishQuitsOnly([rpi, None, cv, rpi2], Gp(gp.value));
    } else if rpi.Some? {
      FinishQuitsOnly([None, rpi2, gp, cv], Rpi(rpi.value));
    } else if rpi2.Some? {
    } else if cv.Some? {
      FinishQuitsOnly([rpi, rpi2, gp, None], Cv(cv.value));
    }
  }

  // ---------------------------------------------------------------------------
  // The priority policy, stated independently of the if/elif chain

  /** The families each rule needs, in the order the rules are tried. */
  const PriorityRules: seq<set<Backend>> :=
    [{Picamera, GPhoto2}, {OpenCV, GPhoto2}, {GPhoto2}, {Picamera}, {Picamera2}, {OpenCV}]

  /** The families whose probe found a camera. */
  function Present<H>(probe: Backend -> Option<H>): set<Backend>
  {
    set b | b in ProbeOrder && probe(b).Some?
  }

  /** Index of the first rule, from `k` on, whose families are all present; |PriorityRules| if none. */
  function FirstRule(present: set<Backend>, k: nat): (r: nat)
    requires k <= |PriorityRules|
    ensures k <= r <= |PriorityRules|
    ensures r < |PriorityRules| ==> PriorityRules[r] <= present
    ensures forall j :: k <= j < r ==> !(PriorityRules[j] <= present)
    decreases |PriorityRules| - k
  {
    if k == |PriorityRules| then k
    else if PriorityRules[k] <= present then k
    else FirstRule(present, k + 1)
  }

  /** The rule a driver of each shape is selected by. */
  function RuleOf<H>(d: Driver<H>): nat
  {
    match d
    case HybridRpi(_, _) => 0
    case HybridCv(_, _) => 1
    case Gp(_) => 2
    case Rpi(_) => 3
    case Rpi2(_) => 4
    case Cv(_) => 5
  }

  lemma PresentMembers<H>(probe: Backend -> Option<H>)
    ensures Picamera in Present(probe) <==> probe(Picamera).Some?
    ensures Picamera2 in Present(probe) <==> probe(Picamera2).Some?
    ensures GPhoto2 in Present(probe) <==> probe(GPhoto2).Some?
    ensures OpenCV in Present(probe) <==> probe(OpenCV).Some?
    ensures Present(probe) <= {Picamera, Picamera2, GPhoto2, OpenCV}
  {
  }

  /**
   * The branch find_camera takes is the first rule, in priority order, whose
   * families are all present. The Picamera2 rule raises the argument error
   * instead of returning, and "no camera" is raised exactly when no rule applies.
   */
  lemma FirstMatchingRuleWins<H>(probe: Backend -> Option<H>)
    ensures var k := FirstRule(Present(probe), 0);
            var o := FindCamera(probe);
            && (o.result == Failure(NoCameraFound) <==> k == |PriorityRules|)
            && (o.result == Failure(WrongArgumentCount) <==> k == 4)
            && (o.result.Success? ==> RuleOf(o.result.value) == k)
  {
    var present := Present(probe);
    PresentMembers(probe);
    var k := FirstRule(present, 0);
    var o := FindCamera(probe);
    if k == 0 {
    } else if k == 1 {
    } else if k == 2 {
    } else if k == 3 {
    } else if k == 4 {
    } else if k == 5 {
    } else {
      assert !({OpenCV} <= present) && !({Picamera2} <= present);
      assert !({Picamera} <= present) && !({GPhoto2} <= present);
    }
  }

  /** find_camera raises "no camera" if and only if all four probes came back empty. */
  lemma NoCameraIffAllProbesAbsent<H>(probe: Backend -> Option<H>)
    ensures FindCamera(probe).result == Failure(NoCameraFound) <==> Present(probe) == {}
  {
    PresentMembers(probe);
    FirstMatchingRuleWins(probe);
    var present := Present(probe);
    if present != {} {
      var b :| b in present;
      assert b in ProbeOrder;
      assert PriorityRules[SlotRule(b)] <= present;
    }
  }

  /** The single-family rule that applies when family `b` is present. */
  function SlotRule(b: Backend): (k: nat)
    ensures k < |PriorityRules| && PriorityRules[k] == {b}
  {
    match b
    case Picamera => 3
    case Picamera2 => 4
    case GPhoto2 => 2
    case OpenCV => 5
  }

  // ---------------------------------------------------------------------------
  // Handles: every probed proxy is kept or released, once

  function OptionSeq<H>(o: Option<H>): seq<H>
  {
    if o.Some? then [o.value] else []
  }

  /** The proxies the probes produced, in probe order. */
  function ProbedHandles<H>(probe: Backend -> Option<H>): seq<H>
  {
    OptionSeq(probe(Picamera)) + OptionSeq(probe(Picamera2))
    + OptionSeq(probe(GPhoto2)) + OptionSeq(probe(OpenCV))
  }

  /**
   * The proxies a driver owns, without their families: the second components
   * of Owned (DriverHandlesAreOwned). Written out by case so that the
   * multiset reasoning below sees a literal sequence.
   */
  function DriverHandles<H>(d: Driver<H>): seq<H>
  {
    match d
    case Rpi(h) => [h]
    case Rpi2(h) => [h]
    case Gp(h) => [h]
    case Cv(h) => [h]
    case HybridRpi(p, c) => [p, c]
    case HybridCv(p, c) => [p, c]
  }

  lemma DriverHandlesAreOwned<H>(d: Driver<H>)
    ensures |DriverHandles(d)| == |Owned(d)|
    ensures forall i :: 0 <= i < |Owned(d)| ==> DriverHandles(d)[i] == Owned(d)[i].1
  {
  }

  /** The proxies quit by an event log, in order. */
  function ReleasedHandles<H>(events: seq<Event<H>>): seq<H>
    decreases |events|
  {
    if events == [] then []
    else (if events[0].Quit? then [events[0].handle] else []) + ReleasedHandles(events[1..])
  }

  lemma {:induction false} ReleasedHandlesAppend<H>(a: seq<Event<H>>, b: seq<Event<H>>)
    ensures ReleasedHandles(a + b) == ReleasedHandles(a) + ReleasedHandles(b)
    decreases |a|
  {
    if a == [] {
      assert a + b == b;
    } else {
      var head := if a[0].Quit? then [a[0].handle] else [];
      assert (a + b)[0] == a[0] && (a + b)[1..] == a[1..] + b;
      assert ReleasedHandles(a + b) == head + ReleasedHandles(a[1..] + b);
      ReleasedHandlesAppend(a[1..], b);
      assert head + (ReleasedHandles(a[1..]) + ReleasedHandles(b))
          == (head + ReleasedHandles(a[1..])) + ReleasedHandles(b);
    }
  }

  lemma ReleasedByQuitIf<H>(b: Backend, proxy: Option<H>)
    ensures ReleasedHandles(QuitIf(b, proxy)) == OptionSeq(proxy)
  {
    if proxy.Some? {
      assert QuitIf(b, proxy)[1..] == [];
    }
  }

  /** The handles quit by close_proxy are its present arguments, in position order. */
  lemma ReleasedByCloseProxy<H>(args: seq<Option<H>>)
    requires |args| == 4
    ensures ReleasedHandles(CloseProxy(args).value)
         == OptionSeq(args[0]) + OptionSeq(args[1]) + OptionSeq(args[2]) + OptionSeq(args[3])
  {
    var q0, q1, q2, q3 := QuitIf(Picamera, args[0]), QuitIf(Picamera2, args[1]),
                          QuitIf(GPhoto2, args[2]), QuitIf(OpenCV, args[3]);
    ReleasedHandlesAppend(q0 + q1 + q2, q3);
    ReleasedHandlesAppend(q0 + q1, q2);
    ReleasedHandlesAppend(q0, q1);
    ReleasedByQuitIf(Picamera, args[0]);
    ReleasedByQuitIf(Picamera2, args[1]);
    ReleasedByQuitIf(GPhoto2, args[2]);
    ReleasedByQuitIf(OpenCV, args[3]);
  }

  /** A returning branch quits exactly the present arguments of its close_proxy call. */
  lemma FinishReleases<H>(args: seq<Option<H>>, d: Driver<H>)
    requires |args| == 4
    ensures var o := Finish(Probes(), CloseProxy(args), d);
      && o.result == Success(d)
      && ReleasedHandles(o.events)
         == OptionSeq(args[0]) + OptionSeq(args[1]) + OptionSeq(args[2]) + OptionSeq(args[3])
  {
    var probed: seq<Event<H>> := Probes();
    assert ReleasedHandles(probed) == [] by {
      assert probed[1..][1..][1..][1..] == [];
    }
    ReleasedHandlesAppend(probed, CloseProxy(args).value);
    ReleasedByCloseProxy(args);
  }

  /**
   * The proxies the returned driver owns and the proxies close_proxy quits
   * are, together, exactly the proxies the probes produced.
   */
  ghost predicate Accounted<H>(probe: Backend -> Option<H>, o: Outcome<H>)
  {
    o.result.Success? ==>
      multiset(DriverHandles(o.result.value)) + multiset(ReleasedHandles(o.events))
      == multiset(ProbedHandles(probe))
  }

  /** A returning branch accounts for the probed proxies if its driver and its close_proxy arguments do. */
  lemma BranchAccounts<H>(args: seq<Option<H>>, d: Driver<H>, probed: seq<H>)
    requires |args| == 4
    requires multiset(DriverHandles(d))
             + multiset(OptionSeq(args[0]) + OptionSeq(args[1]) + OptionSeq(args[2]) + OptionSeq(args[3]))
             == multiset(probed)
    ensures var o := Finish(Probes(), CloseProxy(args), d);
      multiset(DriverHandles(o.result.value)) + multiset(ReleasedHandles(o.events)) == multiset(probed)
  {
    FinishReleases(args, d);
  }

  lemma HybridRpiAccounts<H>(probe: Backend -> Option<H>)
    requires probe(Picamera).Some? && probe(GPhoto2).Some?
    ensures Accounted(probe, FindCamera(probe))
  {
    var rpi, rpi2, gp, cv := probe(Picamera), probe(Picamera2), probe(GPhoto2), probe(OpenCV);
    var args, d := [None, rpi2, None, cv], HybridRpi(rpi.value, gp.value);
    assert FindCamera(probe) == Finish(Probes(), CloseProxy(args), d);
    assert multiset(DriverHandles(d))
           + multiset(OptionSeq(args[0]) + OptionSeq(args[1]) + OptionSeq(args[2]) + OptionSeq(args[3]))
           == multiset(ProbedHandles(probe)) by {
      assert ProbedHandles(probe) == [rpi.value] + OptionSeq(rpi2) + [gp.value] + OptionSeq(cv);
      assert OptionSeq(args[0]) + OptionSeq(args[1]) + OptionSeq(args[2]) + OptionSeq(args[3])
          == OptionSeq(rpi2) + OptionSeq(cv);
    }
    BranchAccounts(args, d, ProbedHandles(probe));
  }

  lemma HybridCvAccounts<H>(probe: Backend -> Option<H>)
    requires probe(Picamera).None? && probe(OpenCV).Some? && probe(GPhoto2).Some?
    ensures Accounted(probe, FindCamera(probe))
  {
    var rpi, rpi2, gp, cv := probe(Picamera), probe(Picamera2), probe(GPhoto2), probe(OpenCV);
    var args, d := [rpi, rpi2, None, None], HybridCv(cv.value, gp.value);
    assert FindCamera(probe) == Finish(Probes(), CloseProxy(args), d);
    assert multiset(DriverHandles(d))
           + multiset(OptionSeq(args[0]) + OptionSeq(args[1]) + OptionSeq(args[2]) + OptionSeq(args[3]))
           == multiset(ProbedHandles(probe)) by {
      assert ProbedHandles(probe) == OptionSeq(rpi2) + [gp.value] + [cv.value];
      assert OptionSeq(args[0]) + OptionSeq(args[1]) + OptionSeq(args[2]) + OptionSeq(args[3])
          == OptionSeq(rpi2);
    }
    BranchAccounts(args, d, ProbedHandles(probe));
  }

  lemma GpAccounts<H>(probe: Backend -> Option<H>)
    requires probe(Picamera).None? && probe(OpenCV).None? && probe(GPhoto2).Some?
    ensures Accounted(probe, FindCamera(probe))
  {
    var rpi, rpi2, gp, cv := probe(Picamera), probe(Picamera2), probe(GPhoto2), probe(OpenCV);
    var args, d := [rpi, None, cv, rpi2], Gp(gp.value);
    assert FindCamera(probe) == Finish(Probes(), CloseProxy(args), d);
    assert multiset(DriverHandles(d))
           + multiset(OptionSeq(args[0]) + OptionSeq(args[1]) + OptionSeq(args[2]) + OptionSeq(args[3]))
           == multiset(ProbedHandles(probe)) by {
      assert ProbedHandles(probe) == OptionSeq(rpi2) + [gp.value];
      assert OptionSeq(args[0]) + OptionSeq(args[1]) + OptionSeq(args[2]) + OptionSeq(args[3])
          == OptionSeq(rpi2);
    }
    BranchAccounts(args, d, ProbedHandles(probe));
  }

  lemma RpiAccounts<H>(probe: Backend -> Option<H>)
    requires probe(Picamera).Some? && probe(GPhoto2).None?
    ensures Accounted(probe, FindCamera(probe))
  {
    var rpi, rpi2, gp, cv := probe(Picamera), probe(Picamera2), probe(GPhoto2), probe(OpenCV);
    var args, d := [None, rpi2, gp, cv], Rpi(rpi.value);
    assert FindCamera(probe) == Finish(Probes(), CloseProxy(args), d);
    assert multiset(DriverHandles(d))
           + multiset(OptionSeq(args[0]) + OptionSeq(args[1]) + OptionSeq(args[2]) + OptionSeq(args[3]))
           == multiset(ProbedHandles(probe)) by {
      assert ProbedHandles(probe) == [rpi.value] + OptionSeq(rpi2) + OptionSeq(cv);
      assert OptionSeq(args[0]) + OptionSeq(args[1]) + OptionSeq(args[2]) + OptionSeq(args[3])
          == OptionSeq(rpi2) + OptionSeq(cv);
    }
    BranchAccounts(args, d, ProbedHandles(probe));
  }

  lemma CvAccounts<H>(probe: Backend -> Option<H>)
    requires probe(Picamera).None? && probe(Picamera2).None? && probe(GPhoto2).None? && probe(OpenCV).Some?
    ensures Accounted(probe, FindCamera(probe))
  {
    var rpi, rpi2, gp, cv := probe(Picamera), probe(Picamera2), probe(GPhoto2), probe(OpenCV);
    var args, d := [rpi, rpi2, gp, None], Cv(cv.value);
    assert FindCamera(probe) == Finish(Probes(), CloseProxy(args), d);
    assert multiset(DriverHandles(d))
           + multiset(OptionSeq(args[0]) + OptionSeq(args[1]) + OptionSeq(args[2]) + OptionSeq(args[3]))
           == multiset(ProbedHandles(probe)) by {
      assert ProbedHandles(probe) == [cv.value];
      assert OptionSeq(args[0]) + OptionSeq(args[1]) + OptionSeq(args[2]) + OptionSeq(args[3]) == [];
    }
    BranchAccounts(args, d, ProbedHandles(probe));
  }

  /**
   * In every branch that returns a driver, no probed proxy is leaked, none
   * is both kept and released, and none is released twice.
   */
  lemma EveryProbedProxyKeptOrReleased<H>(probe: Backend -> Option<H>)
    ensures Accounted(probe, FindCamera(probe))
  {
    var rpi, rpi2, gp, cv := probe(Picamera), probe(Picamera2), probe(GPhoto2), probe(OpenCV);
    if rpi.Some? && gp.Some? {
      HybridRpiAccounts(probe);
    } else if cv.Some? && gp.Some? {
      HybridCvAccounts(probe);
    } else if gp.Some? {
      GpAccounts(probe);
    } else if rpi.Some? {
      RpiAccounts(probe);
    } else if rpi2.Some? {
      Picamera2BranchRaisesArgumentError(probe);
    } else if cv.Some? {
      CvAccounts(probe);
    }
  }

  /** Whether the four probes produced four different proxy objects. */
  predicate DistinctProxies<H(==)>(probe: Backend -> Option<H>)
  {
    forall a, b :: a != b && probe(a).Some? && probe(b).Some? ==> probe(a).value != probe(b).value
  }

  /**
   * No proxy handed to the returned driver is also passed to close_proxy
   * in the same branch, given that the probes return distinct objects.
   */
  lemma KeptProxyIsNeverReleased<H>(probe: Backend -> Option<H>, h: H)
    requires DistinctProxies(probe)
    requires FindCamera(probe).result.Success?
    requires h in DriverHandles(FindCamera(probe).result.value)
    ensures h !in ReleasedHandles(FindCamera(probe).events)
  {
    var o := FindCamera(probe);
    EveryProbedProxyKeptOrReleased(probe);
    ProbedProxyCountedOnce(probe, h);
    var kept, released := multiset(DriverHandles(o.result.value)), multiset(ReleasedHandles(o.events));
    assert kept[h] >= 1;
    assert (kept + released)[h] == kept[h] + released[h];
  }

  /** Distinct probes produce each proxy at most once. */
  lemma ProbedProxyCountedOnce<H>(probe: Backend -> Option<H>, h: H)
    requires DistinctProxies(probe)
    ensures multiset(ProbedHandles(probe))[h] <= 1
  {
    var rpi, rpi2, gp, cv := probe(Picamera), probe(Picamera2), probe(GPhoto2), probe(OpenCV);
    assert multiset(ProbedHandles(probe))[h]
        == multiset(OptionSeq(rpi))[h] + multiset(OptionSeq(rpi2))[h]
         + multiset(OptionSeq(gp))[h] + multiset(OptionSeq(cv))[h];
  }

  /** Both hybrid pairings: the driver they return and exactly what they release. */
  lemma HybridBranches<H>(probe: Backend -> Option<H>)
    ensures var o := FindCamera(probe);
      probe(Picamera).Some? && probe(GPhoto2).Some? ==>
        && o.result == Success(HybridRpi(probe(Picamera).value, probe(GPhoto2).value))
        && o.events == Probes() + QuitIf(Picamera2, probe(Picamera2)) + QuitIf(OpenCV, probe(OpenCV))
    ensures var o := FindCamera(probe);
      probe(Picamera).None? && probe(OpenCV).Some? && probe(GPhoto2).Some? ==>
        && o.result == Success(HybridCv(probe(OpenCV).value, probe(GPhoto2).value))
        && o.events == Probes() + QuitIf(Picamera2, probe(Picamera2))
  {
  }

  /**
   * The gPhoto2-only branch passes the Picamera2 proxy in the OpenCV slot:
   * a present Picamera2 proxy is quit through the OpenCV driver class and
   * never through its own. The OpenCV proxy sits in the gPhoto2 slot, but it
   * is always absent when this branch runs, so nothing is quit as gPhoto2.
   * Like all of close_proxy here, this takes CvCamera(proxy).quit() to return
   * normally when handed a Picamera2 proxy; if it raised instead, find_camera
   * would propagate the exception and return no driver.
   */
  lemma GPhoto2BranchReleasesPicamera2AsOpenCV<H>(probe: Backend -> Option<H>)
    requires probe(GPhoto2).Some? && probe(Picamera).None? && probe(OpenCV).None?
    ensures var o := FindCamera(probe);
      && o.result == Success(Gp(probe(GPhoto2).value))
      && (probe(Picamera2).Some? ==>
            && Quit(OpenCV, probe(Picamera2).value) in o.events
            && Quit(Picamera2, probe(Picamera2).value) !in o.events)
      && forall k :: 0 <= k < |o.events| ==> o.events[k].backend != GPhoto2 || o.events[k].Probe?
  {
    var o := FindCamera(probe);
    var quits := QuitIf(OpenCV, probe(Picamera2));
    assert o.events == Probes() + quits;
    forall k | 0 <= k < |o.events|
      ensures o.events[k].backend != GPhoto2 || o.events[k].Probe?
    {
      if k >= 4 {
        assert o.events[k] == quits[k - 4];
      }
    }
  }

  /**
   * When Picamera2 is the first family present, close_proxy is called with
   * three arguments: the TypeError ends find_camera after the probes, with no
   * proxy released (a present OpenCV proxy is leaked) and no driver built.
   */
  lemma Picamera2BranchRaisesArgumentError<H>(probe: Backend -> Option<H>)
    requires probe(Picamera2).Some? && probe(Picamera).None? && probe(GPhoto2).None?
    ensures FindCamera(probe) == Outcome(Probes(), Failure(WrongArgumentCount))
    ensures ReleasedHandles(FindCamera(probe).events) == []
  {
    assert Probes<H>()[1..][1..][1..][1..] == [];
  }

  // ---------------------------------------------------------------------------
  // The selection with the two argument lists repaired

  /**
   * find_camera with the gPhoto2-only branch passing (rpi, rpi2, None, cv)
   * and the Picamera2 branch passing (rpi, None, gp, cv).
   */
  function FindCameraCorrected<H>(probe: Backend -> Option<H>): (o: Outcome<H>)
    ensures |o.events| >= 4 && o.events[..4] == Probes()
  {
    var rpi := probe(Picamera);
    var rpi2 := probe(Picamera2);
    var gp := probe(GPhoto2);
    var cv := probe(OpenCV);
    var probed := Probes();
    if rpi.Some? && gp.Some? then
      Finish(probed, CloseProxy([None, rpi2, None, cv]), HybridRpi(rpi.value, gp.value))
    else if cv.Some? && gp.Some? then
      Finish(probed, CloseProxy([rpi, rpi2, None, None]), HybridCv(cv.value, gp.value))
    else if gp.Some? then
      Finish(probed, CloseProxy([rpi, rpi2, None, cv]), Gp(gp.value))
    else if rpi.Some? then
      Finish(probed, CloseProxy([None, rpi2, gp, cv]), Rpi(rpi.value))
    else if rpi2.Some? then
      Finish(probed, CloseProxy([rpi, None, gp, cv]), Rpi2(rpi2.value))
    else if cv.Some? then
      Finish(probed, CloseProxy([rpi, rpi2, gp, None]), Cv(cv.value))
    else
      Outcome(probed, Failure(NoCameraFound))
  }

  /**
   * A close_proxy call whose every argument sits in the slot of the family
   * that produced it quits each proxy through that family's driver class.
   */
  lemma QuitsThroughOwnClass<H>(probe: Backend -> Option<H>, args: seq<Option<H>>, d: Driver<H>)
    requires |args| == 4
    requires forall i :: 0 <= i < 4 && args[i].Some? ==> probe(CloseProxySlots[i]) == args[i]
    ensures var events := Finish(Probes(), CloseProxy(args), d).events;
      forall k :: 4 <= k < |events| ==> events[k].Quit? && probe(events[k].backend) == Some(events[k].handle)
  {
    var quits := CloseProxy(args).value;
    var events := Probes() + quits;
    forall k | 4 <= k < |events|
      ensures events[k].Quit? && probe(events[k].backend) == Some(events[k].handle)
    {
      assert events[k] == quits[k - 4];
    }
  }

  /**
   * With the repaired argument lists, a driver is returned whenever any probe
   * found a camera, and every proxy that is quit is quit through the driver
   * class of the family whose probe produced it.
   */
  lemma CorrectedSelectionReleasesThroughOwnClass<H>(probe: Backend -> Option<H>)
    ensures var o := FindCameraCorrected(probe);
      && (o.result.Success? <==> Present(probe) != {})
      && forall k :: 4 <= k < |o.events| ==>
           o.events[k].Quit? && probe(o.events[k].backend) == Some(o.events[k].handle)
  {
    PresentMembers(probe);
    var present := Present(probe);
    if present != {} {
      var b :| b in present;
      assert b in ProbeOrder;
    }
    var rpi, rpi2, gp, cv := probe(Picamera), probe(Picamera2), probe(GPhoto2), probe(OpenCV);
    if rpi.Some? && gp.Some? {
      QuitsThroughOwnClass(probe, [None, rpi2, None, cv], HybridRpi(rpi.value, gp.value));
    } else if cv.Some? && gp.Some? {
      QuitsThroughOwnClass(probe, [rpi, rpi2, None, None], HybridCv(cv.value, gp.value));
    } else if gp.Some? {
      QuitsThroughOwnClass(probe, [rpi, rpi2, None, cv], Gp(gp.value));
    } else if rpi.Some? {
      QuitsThroughOwnClass(probe, [None, rpi2, gp, cv], Rpi(rpi.value));
    } else if rpi2.Some? {
      QuitsThroughOwnClass(probe, [rpi, None, gp, cv], Rpi2(rpi2.value));
    } else if cv.Some? {
      QuitsThroughOwnClass(probe, [rpi, rpi2, gp, None], Cv(cv.value));
    }
  }

  /**
   * The repaired selection picks the same rule as find_camera, except that
   * the Picamera2 rule now returns a driver: the returned driver is always
   * the one of the first rule, in priority order, whose families are present.
   */
  lemma CorrectedSelectionFollowsPriority<H>(probe: Backend -> Option<H>)
    ensures var k := FirstRule(Present(probe), 0);
            var o := FindCameraCorrected(probe);
            && (o.result == Failure(NoCameraFound) <==> k == |PriorityRules|)
            && (o.result.Success? <==> k < |PriorityRules|)
            && (o.result.Success? ==> RuleOf(o.result.value) == k)
  {
    var present := Present(probe);
    PresentMembers(probe);
    var k := FirstRule(present, 0);
    if k == |PriorityRules| {
      assert !({OpenCV} <= present) && !({Picamera2} <= present);
      assert !({Picamera} <= present) && !({GPhoto2} <= present);
    }
  }

  lemma CorrectedHybridRpiAccounts<H>(probe: Backend -> Option<H>)
    requires probe(Picamera).Some? && probe(GPhoto2).Some?
    ensures Accounted(probe, FindCameraCorrected(probe))
  {
    var rpi, rpi2, gp, cv := probe(Picamera), probe(Picamera2), probe(GPhoto2), probe(OpenCV);
    var args, d := [None, rpi2, None, cv], HybridRpi(rpi.value, gp.value);
    assert FindCameraCorrected(probe) == Finish(Probes(), CloseProxy(args), d);
    assert multiset(DriverHandles(d))
           + multiset(OptionSeq(args[0]) + OptionSeq(args[1]) + OptionSeq(args[2]) + OptionSeq(args[3]))
           == multiset(ProbedHandles(probe)) by {
      assert ProbedHandles(probe) == [rpi.value] + OptionSeq(rpi2) + [gp.value] + OptionSeq(cv);
      assert OptionSeq(args[0]) + OptionSeq(args[1]) + OptionSeq(args[2]) + OptionSeq(args[3])
          == OptionSeq(rpi2) + OptionSeq(cv);
    }
    BranchAccounts(args, d, ProbedHandles(probe));
  }

  lemma CorrectedHybridCvAccounts<H>(probe: Backend -> Option<H>)
    requires probe(Picamera).None? && probe(OpenCV).Some? && probe(GPhoto2).Some?
    ensures Accounted(probe, FindCameraCorrected(probe))
  {
    var rpi, rpi2, gp, cv := probe(Picamera), probe(Picamera2), probe(GPhoto2), probe(OpenCV);
    var args, d := [rpi, rpi2, None, None], HybridCv(cv.value, gp.value);
    assert FindCameraCorrected(probe) == Finish(Probes(), CloseProxy(args), d);
    assert multiset(DriverHandles(d))
           + multiset(OptionSeq(args[0]) + OptionSeq(args[1]) + OptionSeq(args[2]) + OptionSeq(args[3]))
           == multiset(ProbedHandles(probe)) by {
      assert ProbedHandles(probe) == OptionSeq(rpi2) + [gp.value] + [cv.value];
      assert OptionSeq(args[0]) + OptionSeq(args[1]) + OptionSeq(args[2]) + OptionSeq(args[3])
          == OptionSeq(rpi2);
    }
    BranchAccounts(args, d, ProbedHandles(probe));
  }

  lemma CorrectedGpAccounts<H>(probe: Backend -> Option<H>)
    requires probe(Picamera).None? && probe(OpenCV).None? && probe(GPhoto2).Some?
    ensures Accounted(probe, FindCameraCorrected(probe))
  {
    var rpi, rpi2, gp, cv := probe(Picamera), probe(Picamera2), probe(GPhoto2), probe(OpenCV);
    var args, d := [rpi, rpi2, None, cv], Gp(gp.value);
    assert FindCameraCorrected(probe) == Finish(Probes(), CloseProxy(args), d);
    assert multiset(DriverHandles(d))
           + multiset(OptionSeq(args[0]) + OptionSeq(args[1]) + OptionSeq(args[2]) + OptionSeq(args[3]))
           == multiset(ProbedHandles(probe)) by {
      assert ProbedHandles(probe) == OptionSeq(rpi2) + [gp.value];
      assert OptionSeq(args[0]) + OptionSeq(args[1]) + OptionSeq(args[2]) + OptionSeq(args[3])
          == OptionSeq(rpi2);
    }
    BranchAccounts(args, d, ProbedHandles(probe));
  }

  lemma CorrectedRpiAccounts<H>(probe: Backend -> Option<H>)
    requires probe(Picamera).Some? && probe(GPhoto2).None?
    ensures Accounted(probe, FindCameraCorrected(probe))
  {
    var rpi, rpi2, gp, cv := probe(Picamera), probe(Picamera2), probe(GPhoto2), probe(OpenCV);
    var args, d := [None, rpi2, gp, cv], Rpi(rpi.value);
    assert FindCameraCorrected(probe) == Finish(Probes(), CloseProxy(args), d);
    assert multiset(DriverHandles(d))
           + multiset(OptionSeq(args[0]) + OptionSeq(args[1]) + OptionSeq(args[2]) + OptionSeq(args[3]))
           == multiset(ProbedHandles(probe)) by {
      assert ProbedHandles(probe) == [rpi.value] + OptionSeq(rpi2) + OptionSeq(cv);
      assert OptionSeq(args[0]) + OptionSeq(args[1]) + OptionSeq(args[2]) + OptionSeq(args[3])
          == OptionSeq(rpi2) + OptionSeq(cv);
    }
    BranchAccounts(args, d, ProbedHandles(probe));
  }

  lemma CorrectedRpi2Accounts<H>(probe: Backend -> Option<H>)
    requires probe(Picamera).None? && probe(GPhoto2).None? && probe(Picamera2).Some?
    ensures Accounted(probe, FindCameraCorrected(probe))
  {
    var rpi, rpi2, gp, cv := probe(Picamera), probe(Picamera2), probe(GPhoto2), probe(OpenCV);
    var args, d := [rpi, None, gp, cv], Rpi2(rpi2.value);
    assert FindCameraCorrected(probe) == Finish(Probes(), CloseProxy(args), d);
    assert multiset(DriverHandles(d))
           + multiset(OptionSeq(args[0]) + OptionSeq(args[1]) + OptionSeq(args[2]) + OptionSeq(args[3]))
           == multiset(ProbedHandles(probe)) by {
      assert ProbedHandles(probe) == [rpi2.value] + OptionSeq(cv);
      assert OptionSeq(args[0]) + OptionSeq(args[1]) + OptionSeq(args[2]) + OptionSeq(args[3])
          == OptionSeq(cv);
    }
    BranchAccounts(args, d, ProbedHandles(probe));
  }

  lemma CorrectedCvAccounts<H>(probe: Backend -> Option<H>)
    requires probe(Picamera).None? && probe(Picamera2).None? && probe(GPhoto2).None? && probe(OpenCV).Some?
    ensures Accounted(probe, FindCameraCorrected(probe))
  {
    var rpi, rpi2, gp, cv := probe(Picamera), probe(Picamera2), probe(GPhoto2), probe(OpenCV);
    var args, d := [rpi, rpi2, gp, None], Cv(cv.value);
    assert FindCameraCorrected(probe) == Finish(Probes(), CloseProxy(args), d);
    assert multiset(DriverHandles(d))
           + multiset(OptionSeq(args[0]) + OptionSeq(args[1]) + OptionSeq(args[2]) + OptionSeq(args[3]))
           == multiset(ProbedHandles(probe)) by {
      assert ProbedHandles(probe) == [cv.value];
      assert OptionSeq(args[0]) + OptionSeq(args[1]) + OptionSeq(args[2]) + OptionSeq(args[3])
          == [];
    }
    BranchAccounts(args, d, ProbedHandles(probe));
  }

  /**
   * With the repaired argument lists every probed proxy is, in every branch
   * that returns a driver, either kept by the driver or quit exactly once.
   */
  lemma CorrectedSelectionKeepsOrReleasesEveryProxy<H>(probe: Backend -> Option<H>)
    ensures Accounted(probe, FindCameraCorrected(probe))
  {
    var rpi, rpi2, gp, cv := probe(Picamera), probe(Picamera2), probe(GPhoto2), probe(OpenCV);
    if rpi.Some? && gp.Some? {
      CorrectedHybridRpiAccounts(probe);
    } else if cv.Some? && gp.Some? {
      CorrectedHybridCvAccounts(probe);
    } else if gp.Some? {
      CorrectedGpAccounts(probe);
    } else if rpi.Some? {
      CorrectedRpiAccounts(probe);
    } else if rpi2.Some? {
      CorrectedRpi2Accounts(probe);
    } else if cv.Some? {
      CorrectedCvAccounts(probe);
    }
  }
}

/** The flag protocol of canscope/device/threaded_loop_run.cc: callers start, single-shot and stop
    a loop whose turns run as tasks of one thread. Every lock-protected block is one step. */
module LoopRunSpec {
  datatype Flags = Flags(start: bool, single: bool, stop: bool, running: bool)

  const RESET := Flags(false, false, false, false)

  /** Start; the answer says whether a LoopRun has to be posted. */
  function StartBlock(f: Flags): (Flags, bool) {
    if f.start || f.single then (f, false) else (f.(start := true), true)
  }

  function SingleBlock(f: Flags): (Flags, bool) {
    if f.start || f.single then (f, false) else (f.(single := true), true)
  }

  function StopBlock(f: Flags): Flags {
    if (!f.start && !f.single) || f.stop then f else f.(stop := true)
  }

  /** The first block of LoopRun; the answer says whether the session ends here. */
  function EnterBlock(f: Flags): (Flags, bool) {
    if f.stop then (RESET, true) else (f.(running := true), false)
  }

  /** The second block, after LoopRunImp returned ret. */
  function LeaveBlock(f: Flags, ret: bool): (Flags, bool) {
    if f.stop || !ret then (RESET, true) else (f, false)
  }

  /** Where the run thread is: Begun before the first block, Passed between it and LoopRunImp,
      Ending before OnStop, Reposting before the next turn is posted. */
  datatype Pc = MessageLoop | Begun | Passed | Running | Ending | Reposting

  /** posting counts the callers between their block and their PostTask, queued the tasks waiting
      for the run thread. sessions, stops and late count the accepted starts, the calls of OnStop,
      and the LoopRunImp calls that began after the current session's Stop was accepted. */
  datatype Loop = Loop(f: Flags, posting: nat, queued: nat, pc: Pc, sessions: nat, stops: nat, late: nat)

  datatype Move =
    | Start | Single | Stop | Post
    | Pop | Enter | BeginImp | Leave(ret: bool) | Repost | CallOnStop

  predicate Enabled(s: Loop, m: Move) {
    match m
    case Start => true
    case Single => true
    case Stop => true
    case Post => s.posting > 0
    case Pop => s.queued > 0 && s.pc.MessageLoop?
    case Enter => s.pc.Begun?
    case BeginImp => s.pc.Passed?
    case Leave(_) => s.pc.Running?
    case Repost => s.pc.Reposting?
    case CallOnStop => s.pc.Ending?
  }

  function Accepted(s: Loop, answer: (Flags, bool)): Loop {
    if answer.1 then s.(f := answer.0, posting := s.posting + 1, sessions := s.sessions + 1)
    else s.(f := answer.0)
  }

  function Decided(s: Loop, answer: (Flags, bool), otherwise: Pc): Loop {
    if answer.1 then s.(f := answer.0, pc := Ending, late := 0) else s.(f := answer.0, pc := otherwise)
  }

  function Apply(s: Loop, m: Move): Loop
    requires Enabled(s, m)
  {
    match m
    case Start => Accepted(s, StartBlock(s.f))
    case Single => Accepted(s, SingleBlock(s.f))
    case Stop => s.(f := StopBlock(s.f))
    case Post => s.(posting := s.posting - 1, queued := s.queued + 1)
    case Pop => s.(queued := s.queued - 1, pc := Begun)
    case Enter => Decided(s, EnterBlock(s.f), Passed)
    case BeginImp => s.(pc := Running, late := if s.f.stop then s.late + 1 else s.late)
    case Leave(ret) => Decided(s, LeaveBlock(s.f, ret), Reposting)
    case Repost => s.(queued := s.queued + 1, pc := MessageLoop)
    case CallOnStop => s.(pc := MessageLoop, stops := s.stops + 1)
  }

  /** The LoopRuns that are about to be posted, queued, or running and not yet reset. */
  function Live(s: Loop): nat {
    s.posting + s.queued + if s.pc.MessageLoop? || s.pc.Ending? then 0 else 1
  }

  ghost predicate Inv(s: Loop) {
    && Live(s) == (if s.f.start || s.f.single then 1 else 0)
    && !(s.f.start && s.f.single)
    && (s.f.stop || s.f.running ==> s.f.start || s.f.single)
    && (s.pc.Passed? || s.pc.Running? || s.pc.Reposting? ==> s.f.running)
    && s.sessions == s.stops + Live(s) + (if s.pc.Ending? then 1 else 0)
    && s.late <= (if s.f.stop && s.pc.Running? then 1 else 0)
  }

  predicate Starts(s: Loop) {
    s == Loop(RESET, 0, 0, MessageLoop, 0, 0, 0)
  }

  lemma InvKept(s: Loop, m: Move)
    requires Inv(s) && Enabled(s, m)
    ensures Inv(Apply(s, m))
  {
  }

  ghost predicate IsRun(ss: seq<Loop>, ms: seq<Move>) {
    && |ss| == |ms| + 1
    && Starts(ss[0])
    && forall k {:trigger ms[k]} :: 0 <= k < |ms| ==> Enabled(ss[k], ms[k]) && ss[k + 1] == Apply(ss[k], ms[k])
  }

  lemma {:induction false} RunInv(ss: seq<Loop>, ms: seq<Move>, n: nat)
    requires IsRun(ss, ms) && n <= |ms|
    ensures Inv(ss[n])
  {
    if n == 0 {
    } else {
      RunInv(ss, ms, n - 1);
      var m := ms[n - 1];
      InvKept(ss[n - 1], m);
    }
  }

  /** In every interleaving: start_ or single_ is set exactly while one LoopRun is live and never
      two are, stop_ and running_ imply it, at most one LoopRunImp begins after a Stop was accepted,
      and as many sessions called OnStop as were accepted and have finished. */
  lemma EveryLoopRun(ss: seq<Loop>, ms: seq<Move>)
    requires IsRun(ss, ms)
    ensures var s := ss[|ms|];
            && (s.f.start || s.f.single <==> Live(s) == 1) && Live(s) <= 1
            && (s.f.stop || s.f.running ==> Live(s) == 1)
            && s.late <= 1
            && (Live(s) == 0 && s.pc.MessageLoop? ==> s.stops == s.sessions)
  {
    RunInv(ss, ms, |ms|);
  }

  // ----- a stopped session ends

  /** Steps of the session still to come once Stop was accepted. */
  function Left(s: Loop): nat {
    if s.posting > 0 then 10
    else match s.pc
      case Passed => 8
      case Running => 7
      case Reposting => 5
      case MessageLoop => if s.queued > 0 then 4 else 0
      case Begun => 3
      case Ending => if s.queued > 0 then 4 else 0
  }

  predicate OfSession(m: Move) {
    !m.Start? && !m.Single? && !m.Stop? && !m.CallOnStop?
  }

  /** Once Stop was accepted, every step of the session brings its end nearer, and the callers
      change nothing. */
  lemma StopHastens(s: Loop, m: Move)
    requires Inv(s) && Enabled(s, m) && s.f.stop
    ensures var s' := Apply(s, m);
            && (OfSession(m) && s'.f.stop ==> Left(s') < Left(s))
            && (!OfSession(m) ==> Left(s') <= Left(s) && s'.f == s.f)
            && (!s'.f.stop ==> s'.pc.Ending? && s'.f == RESET)
  {
  }

  /** And some step of it is always possible. */
  lemma StopNeverStuck(s: Loop)
    requires Inv(s) && s.f.stop
    ensures exists m :: Enabled(s, m) && (OfSession(m) || m.CallOnStop?)
  {
    if s.posting > 0 {
      assert Enabled(s, Post);
    } else {
      match s.pc
      case MessageLoop => assert Enabled(s, Pop);
      case Begun => assert Enabled(s, Enter);
      case Passed => assert Enabled(s, BeginImp);
      case Running => assert Enabled(s, Leave(true)) && OfSession(Leave(true));
      case Ending => assert Enabled(s, CallOnStop);
      case Reposting => assert Enabled(s, Repost);
    }
  }

  function SessionSteps(ms: seq<Move>): nat {
    if ms == [] then 0 else SessionSteps(ms[..|ms| - 1]) + if OfSession(ms[|ms| - 1]) then 1 else 0
  }

  /** Stop is obeyed after at most ten more steps of the session, whatever else happens. */
  lemma {:induction false} StopObeyed(ss: seq<Loop>, ms: seq<Move>, i: nat, j: nat)
    requires IsRun(ss, ms) && i <= j <= |ms|
    requires forall k :: i <= k <= j ==> ss[k].f.stop
    ensures SessionSteps(ms[i..j]) + Left(ss[j]) <= 10
    decreases j - i
  {
    RunInv(ss, ms, j);
    if i == j {
    } else {
      var n := j - 1;
      StopObeyed(ss, ms, i, n);
      RunInv(ss, ms, n);
      var m := ms[n];
      StopHastens(ss[n], m);
      assert ms[i..j][..j - i - 1] == ms[i..n];
    }
  }

  // ----- when a session begins and ends

  /** Move m ends the session: OnStop comes next. */
  predicate Ends(s: Loop, m: Move)
    requires Enabled(s, m)
  {
    !s.pc.Ending? && Apply(s, m).pc.Ending?
  }

  /** A session ends at the first lock-protected block after Stop was accepted, or when LoopRunImp
      returned false, and never otherwise; all four flags are clear then. */
  lemma EndsExactly(s: Loop, m: Move)
    requires Enabled(s, m)
    ensures Ends(s, m) <==> (m.Enter? && s.f.stop) || (m.Leave? && (s.f.stop || !m.ret))
    ensures Ends(s, m) ==> var f := Apply(s, m).f; !f.start && !f.single && !f.stop && !f.running
  {
  }

  /** Start and Single begin a session exactly when none is live, and only the flag they set tells
      them apart; otherwise they change nothing. */
  lemma BeginsExactly(s: Loop, m: Move)
    requires Inv(s) && (m.Start? || m.Single?)
    ensures var s' := Apply(s, m);
            if Live(s) == 0
            then s' == s.(f := s'.f, posting := s.posting + 1, sessions := s.sessions + 1)
                 && s'.f.start == m.Start? && s'.f.single == m.Single? && !s'.f.stop && !s'.f.running
            else s' == s
  {
  }

  /** Stop is accepted exactly while a session is live, and it touches nothing but its own flag. */
  lemma StopAccepted(s: Loop)
    requires Inv(s)
    ensures Apply(s, Stop).f.stop <==> Live(s) == 1
    ensures Apply(s, Stop) == s.(f := s.f.(stop := Apply(s, Stop).f.stop))
  {
  }

  ghost predicate EndsBetween(ss: seq<Loop>, ms: seq<Move>, i: nat, j: nat)
    requires IsRun(ss, ms) && j <= |ms|
  {
    exists k: nat :: i <= k < j && EndsAt(ss, ms, k)
  }

  ghost predicate EndsAt(ss: seq<Loop>, ms: seq<Move>, k: nat)
    requires IsRun(ss, ms) && k < |ms|
  {
    var m := ms[k];
    Ends(ss[k], m)
  }

  lemma {:induction false} StopStays(ss: seq<Loop>, ms: seq<Move>, i: nat, j: nat, k: nat)
    requires IsRun(ss, ms) && i < k <= j <= |ms| && ms[i].Stop? && Live(ss[i]) == 1
    requires !EndsBetween(ss, ms, i, j)
    ensures ss[k].f.stop
  {
    RunInv(ss, ms, k - 1);
    var m := ms[k - 1];
    if k == i + 1 {
      StopAccepted(ss[i]);
    } else {
      StopStays(ss, ms, i, j, k - 1);
      StopHastens(ss[k - 1], m);
      assert !EndsAt(ss, ms, k - 1);
      EndsExactly(ss[k - 1], m);
    }
  }

  /** A Stop that finds a session live ends it: before the end at most ten steps of the session are
      made, whatever else happens, and the stop flag is set all the while. */
  lemma StopTakesEffect(ss: seq<Loop>, ms: seq<Move>, i: nat, j: nat)
    requires IsRun(ss, ms) && i < j <= |ms| && ms[i].Stop? && Live(ss[i]) == 1
    requires !EndsBetween(ss, ms, i, j)
    ensures ss[j].f.stop && SessionSteps(ms[i + 1..j]) <= 10
  {
    forall k | i + 1 <= k <= j ensures ss[k].f.stop {
      StopStays(ss, ms, i, j, k);
    }
    StopObeyed(ss, ms, i + 1, j);
  }

  lemma {:induction false} NoStopYet(ss: seq<Loop>, ms: seq<Move>, i: nat, j: nat)
    requires IsRun(ss, ms) && i <= j <= |ms| && !ss[i].f.stop
    requires forall k :: i <= k < j ==> !ms[k].Stop?
    ensures !ss[j].f.stop
    decreases j - i
  {
    if i == j {
    } else {
      NoStopYet(ss, ms, i, j - 1);
      var m := ms[j - 1];
      assert ss[j] == Apply(ss[j - 1], m);
    }
  }

  /** Nothing but a Stop or a LoopRunImp that returns false ends a session: one that ends at step j
      after it began at step i had a Stop in between, or its LoopRunImp returned false just now. */
  lemma EndsOnlyWhenAsked(ss: seq<Loop>, ms: seq<Move>, i: nat, j: nat)
    requires IsRun(ss, ms) && i < j < |ms| && (ms[i].Start? || ms[i].Single?) && Live(ss[i]) == 0
    requires EndsAt(ss, ms, j)
    ensures ms[j] == Leave(false) || exists k :: i < k < j && ms[k].Stop?
  {
    RunInv(ss, ms, i);
    var m, n := ms[i], ms[j];
    BeginsExactly(ss[i], m);
    EndsExactly(ss[j], n);
    if forall k :: i < k < j ==> !ms[k].Stop? {
      NoStopYet(ss, ms, i + 1, j);
    }
  }
}

/** The class whose lock-protected blocks those steps are. */
module ThreadedLoopRuns {
  import opened LoopRunSpec

  class ThreadedLoopRun {
    var start: bool
    var single: bool
    var stop: bool
    var running: bool

    function View(): Flags
      reads this
    {
      Flags(start, single, stop, running)
    }

    constructor ()
      ensures View() == RESET
    {
      start, single, stop, running := false, false, false, false;
    }

    method Start() returns (post: bool)
      modifies this`start
      ensures (View(), post) == StartBlock(old(View()))
      ensures post <==> !old(start) && !old(single)
      ensures start <==> old(start) || post
    {
      if start || single {
        return false;
      }
      start := true;
      post := true;
    }

    method Single() returns (post: bool)
      modifies this`single
      ensures (View(), post) == SingleBlock(old(View()))
      ensures post <==> !old(start) && !old(single)
      ensures single <==> old(single) || post
    {
      if start || single {
        return false;
      }
      single := true;
      post := true;
    }

    method Stop()
      modifies this`stop
      ensures View() == StopBlock(old(View()))
      ensures stop <==> old(stop) || start || single
    {
      if (!start && !single) || stop {
        return;
      }
      stop := true;
    }

    method Reset()
      modifies this
      ensures View() == RESET
    {
      running, start, single, stop := false, false, false, false;
    }

    method LoopRunEnter() returns (ended: bool)
      modifies this
      ensures (View(), ended) == EnterBlock(old(View()))
      ensures ended <==> old(stop)
      ensures if ended then !start && !single && !stop && !running
              else running && start == old(start) && single == old(single) && !stop
    {
      ended := false;
      if stop {
        ended := true;
        Reset();
      } else if !running {
        running := true;
      }
    }

    method LoopRunLeave(ret: bool) returns (ended: bool)
      modifies this
      ensures (View(), ended) == LeaveBlock(old(View()), ret)
      ensures ended <==> old(stop) || !ret
      ensures if ended then !start && !single && !stop && !running
              else start == old(start) && single == old(single) && running == old(running) && !stop
    {
      ended := false;
      if stop {
        ended := true;
        Reset();
      }
      if !ret {
        ended := true;
        Reset();
      }
    }
  }
}

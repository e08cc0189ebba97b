/**
 Sequences of player callbacks delivered to the listener, and the laws they
 obey: each flag ends up as the latest callback that decides it left it.
 */
module EventSequences {
  import opened Options
  import opened PlayerViewModel
  import opened PlayerScreen

  /** The listener consuming callbacks in delivery order. */
  function Run(s: State, es: seq<PlayerEvent>): State
    decreases |es|
  {
    if es == [] then s else Run(Step(s, es[0]), es[1..])
  }

  /** The two flags the listener writes. */
  datatype Flag = Loading | TitleVisible

  function FlagOf(f: Flag, s: State): bool
  {
    match f
    case Loading => s.isPlayerLoading
    case TitleVisible => s.visibleTitle
  }

  /**
   What a single callback decides about a flag, independently of any state:
   `Some(b)` when it forces the flag to `b`, `None` when it leaves it alone.
   */
  function Effect(f: Flag, e: PlayerEvent): Option<bool>
  {
    match (f, e)
    case (Loading, PlaybackStateChanged(c)) =>
      if c == StateIdle || c == StateBuffering then Some(true)
      else if c == StateReady || c == StateEnded then Some(false)
      else None
    case (TitleVisible, MediaItemTransition(_, _)) => Some(true)
    case (TitleVisible, Events(p)) => if p >= HideTitleFromMs then Some(false) else None
    case _ => None
  }

  /**
   The flag after `es`, started from `initial`, is true exactly when the last
   callback deciding it set it, or when no callback decided it and it was
   already true.
   */
  ghost predicate LatestDecision(f: Flag, es: seq<PlayerEvent>, initial: bool)
  {
    || (exists j :: 0 <= j < |es| && Effect(f, es[j]) == Some(true) &&
          forall k :: j < k < |es| ==> Effect(f, es[k]).None?)
    || (initial && forall k :: 0 <= k < |es| ==> Effect(f, es[k]).None?)
  }

  /** Delivering one more callback at the end. */
  lemma {:induction false} RunSnoc(s: State, es: seq<PlayerEvent>, e: PlayerEvent)
    ensures Run(s, es + [e]) == Step(Run(s, es), e)
    decreases |es|
  {
    if es == [] {
      assert [] + [e] == [e];
    } else {
      assert (es + [e])[0] == es[0];
      assert (es + [e])[1..] == es[1..] + [e];
      RunSnoc(Step(s, es[0]), es[1..], e);
    }
  }

  /** A single callback sets the flag to what it decides, or leaves it. */
  lemma StepEffect(f: Flag, s: State, e: PlayerEvent)
    ensures FlagOf(f, Step(s, e)) == match Effect(f, e) case Some(b) => b case None => FlagOf(f, s)
  {
  }

  /** The latest deciding callback wins, for either flag and any callback sequence. */
  lemma {:induction false} RunFollowsLatestDecision(f: Flag, s: State, es: seq<PlayerEvent>)
    ensures FlagOf(f, Run(s, es)) <==> LatestDecision(f, es, FlagOf(f, s))
    decreases |es|
  {
    var init := FlagOf(f, s);
    if es == [] {
      assert Run(s, es) == s;
    } else {
      var front, e := es[..|es| - 1], es[|es| - 1];
      assert es == front + [e];
      RunSnoc(s, front, e);
      RunFollowsLatestDecision(f, s, front);
      StepEffect(f, Run(s, front), e);
      match Effect(f, e)
      case Some(b) =>
        if b {
          assert LatestDecision(f, es, init) by {
            assert Effect(f, es[|es| - 1]) == Some(true);
          }
        }
      case None =>
        if LatestDecision(f, front, init) {
          if j :| (0 <= j < |front| && Effect(f, front[j]) == Some(true) &&
                   forall k :: j < k < |front| ==> Effect(f, front[k]).None?) {
            assert es[j] == front[j];
            assert forall k :: j < k < |es| ==> Effect(f, es[k]).None? by {
              forall k | j < k < |es| ensures Effect(f, es[k]).None? {
                if k < |front| { assert es[k] == front[k]; }
              }
            }
          } else {
            assert forall k :: 0 <= k < |es| ==> Effect(f, es[k]).None? by {
              forall k | 0 <= k < |es| ensures Effect(f, es[k]).None? {
                if k < |front| { assert es[k] == front[k]; }
              }
            }
          }
        }
        if LatestDecision(f, es, init) {
          if j :| (0 <= j < |es| && Effect(f, es[j]) == Some(true) &&
                   forall k :: j < k < |es| ==> Effect(f, es[k]).None?) {
            assert j < |front|;
            assert front[j] == es[j];
            assert forall k :: j < k < |front| ==> Effect(f, front[k]).None? by {
              forall k | j < k < |front| ensures Effect(f, front[k]).None? {
                assert front[k] == es[k];
              }
            }
          } else {
            assert forall k :: 0 <= k < |front| ==> Effect(f, front[k]).None? by {
              forall k | 0 <= k < |front| ensures Effect(f, front[k]).None? {
                assert front[k] == es[k];
              }
            }
          }
        }
    }
  }

  /** Callbacks never touch the playlist, the current video or the player. */
  lemma {:induction false} RunKeepsViewModelData(s: State, es: seq<PlayerEvent>)
    ensures Run(s, es).videos == s.videos
    ensures Run(s, es).currentVideo == s.currentVideo
    ensures Run(s, es).player == s.player
    decreases |es|
  {
    if es != [] {
      RunKeepsViewModelData(Step(s, es[0]), es[1..]);
    }
  }

  /** No callback sequence can move the current video out of the playlist. */
  lemma RunPreservesValid(s: State, es: seq<PlayerEvent>)
    requires Valid(s)
    ensures Valid(Run(s, es))
  {
    RunKeepsViewModelData(s, es);
  }

  /**
   The loading flag is the one the last recognised state callback asked for:
   idle or buffering show the spinner, ready or ended hide it, whatever came before.
   */
  lemma LoadingFollowsLastStateChange(s: State, es: seq<PlayerEvent>, state: int, rest: seq<PlayerEvent>)
    requires state in {StateIdle, StateBuffering, StateReady, StateEnded}
    requires forall k :: 0 <= k < |rest| ==>
      !(rest[k].PlaybackStateChanged? && rest[k].state in {StateIdle, StateBuffering, StateReady, StateEnded})
    ensures Run(s, es + [PlaybackStateChanged(state)] + rest).isPlayerLoading
      <==> (state == StateIdle || state == StateBuffering)
  {
    var all := es + [PlaybackStateChanged(state)] + rest;
    var j := |es|;
    assert all[j] == PlaybackStateChanged(state);
    assert forall k :: j < k < |all| ==> all[k] == rest[k - j - 1];
    RunFollowsLatestDecision(Loading, s, all);
    if state == StateIdle || state == StateBuffering {
      assert Effect(Loading, all[j]) == Some(true);
    }
  }

  /** Buffering reported after ready puts the spinner back. */
  lemma BufferingAfterReadyLoads(s: State)
    ensures Run(s, [PlaybackStateChanged(StateReady), PlaybackStateChanged(StateBuffering)]).isPlayerLoading
    ensures !Run(s, [PlaybackStateChanged(StateBuffering), PlaybackStateChanged(StateReady)]).isPlayerLoading
  {
    LoadingFollowsLastStateChange(s, [PlaybackStateChanged(StateReady)], StateBuffering, []);
    LoadingFollowsLastStateChange(s, [PlaybackStateChanged(StateBuffering)], StateReady, []);
    assert [PlaybackStateChanged(StateReady)] + [PlaybackStateChanged(StateBuffering)] + []
      == [PlaybackStateChanged(StateReady), PlaybackStateChanged(StateBuffering)];
    assert [PlaybackStateChanged(StateBuffering)] + [PlaybackStateChanged(StateReady)] + []
      == [PlaybackStateChanged(StateBuffering), PlaybackStateChanged(StateReady)];
  }

  /** Once hidden, the title stays hidden until a media-item transition arrives. */
  lemma HiddenTitleStaysHidden(s: State, es: seq<PlayerEvent>)
    requires !s.visibleTitle
    requires forall k :: 0 <= k < |es| ==> !es[k].MediaItemTransition?
    ensures !Run(s, es).visibleTitle
  {
    RunFollowsLatestDecision(TitleVisible, s, es);
  }

  /** A shown title stays shown while no callback reports a position of 200 ms or more. */
  lemma ShownTitleStaysShown(s: State, es: seq<PlayerEvent>)
    requires s.visibleTitle
    requires forall k :: 0 <= k < |es| ==> !(es[k].Events? && es[k].position >= HideTitleFromMs)
    ensures Run(s, es).visibleTitle
  {
    RunFollowsLatestDecision(TitleVisible, s, es);
    if k :| 0 <= k < |es| && Effect(TitleVisible, es[k]).Some? {
      var last := LastDecisive(TitleVisible, es, k);
      assert Effect(TitleVisible, es[last]) == Some(true);
    }
  }

  /** The position of the last callback deciding `f`, given that the one at `k` decides it. */
  ghost function LastDecisive(f: Flag, es: seq<PlayerEvent>, k: int): (j: int)
    requires 0 <= k < |es| && Effect(f, es[k]).Some?
    ensures k <= j < |es| && Effect(f, es[j]).Some?
    ensures forall i :: j < i < |es| ==> Effect(f, es[i]).None?
    decreases |es| - k
  {
    if exists i :: k < i < |es| && Effect(f, es[i]).Some? then
      var i :| k < i < |es| && Effect(f, es[i]).Some?;
      LastDecisive(f, es, i)
    else k
  }

}

/**
 * The state of the Game component (src/client/Game.tsx): the stats, the displayed
 * condition, the aliveness flag, the action cooldown flag and the action counter, and the
 * handlers that change them. Each React handler is one method with the state it leaves
 * behind once its updates and the death-check effect have run; fetch results, timers and
 * polls are passed in or become explicit calls.
 */
module GameComponent {
  import opened Wrappers
  import opened PetTypes
  import opened Simulation
  import ActionServer

  /** What `fetch('/api/pet-action')` gave the client: a parsed reply, or a thrown error. */
  datatype ActionReply = Replied(response: ActionServer.ActionResponse) | Failed

  /** The parsed body of a successful `/api/pet-state` read; both fields may be absent. */
  datatype StateReply = StateReply(stats: Option<Stats>, alive: Option<bool>)

  /** The body the decay tick posts to `/api/pet-state`. */
  datatype StateWrite = StateWrite(stats: Stats, alive: bool)

  /** Aliveness after a poll: the remote flag unless it is literally false, then forced off
      by the death check when the received stats are dying. */
  function SyncedAlive(remoteAlive: Option<bool>, s: Stats): (alive: bool)
    ensures alive ==> Classify(s) != Dead
    ensures alive <==> remoteAlive != Some(false) && !Dying(s)
  {
    remoteAlive != Some(false) && Classify(s) != Dead
  }

  /** The decay tick reports `alive` from health alone, while the death rule looks at four
      vitals: a tick can post alive == true for a pet that is already dead. */
  lemma PostedAliveDisagrees()
    ensures var d := Decay(Stats(100.0, 2.0, 100.0, 100.0, 100.0, 5.0));
      d.health > 0.0 && Classify(d) == Dead
  {
  }

  /** A client that polls a record posted by a tick still ends with the four-vital verdict,
      so the disagreement above never shows on a receiving client. */
  lemma PostedAliveHarmless(s: Stats)
    ensures SyncedAlive(Some(s.health > 0.0), s) == (Classify(s) != Dead)
  {
  }

  class Game {
    var stats: Stats
    var petState: Condition
    var alive: bool
    var disabled: bool
    var actionCount: nat

    /** The component invariant: a pet whose stats are dying is never alive, and the
        displayed condition is the classification of the stats, except at mount and right
        after a restart, which show idle for the birth stats. */
    ghost predicate Valid()
      reads this
    {
      (Classify(stats) == Dead ==> !alive)
      && (petState == Classify(stats) || (stats == Initial && petState == Idle))
    }

    /** The initial component state: birth stats, idle, alive, no cooldown, no actions. */
    constructor ()
      ensures Valid()
      ensures stats == Initial && petState == Idle && alive && !disabled && actionCount == 0
    {
      stats := Initial;
      petState := Idle;
      alive := true;
      disabled := false;
      actionCount := 0;
    }

    /** updatePetState: show the classification, and mark the pet dead when it is. */
    method UpdatePetState(s: Stats)
      modifies this
      ensures petState == Classify(s)
      ensures alive == (old(alive) && Classify(s) != Dead)
      ensures stats == old(stats) && disabled == old(disabled) && actionCount == old(actionCount)
    {
      petState := Classify(s);
      if petState == Dead {
        alive := false;
      }
    }

    /** The death-check effect: a living pet whose stats are dying is marked dead. */
    method DeathCheck()
      modifies this
      ensures alive == (old(alive) && !Dying(stats))
      ensures petState == if Dying(stats) && old(alive) then Dead else old(petState)
      ensures stats == old(stats) && disabled == old(disabled) && actionCount == old(actionCount)
    {
      if Dying(stats) && alive {
        alive := false;
        petState := Dead;
      }
    }

    /** One run of the decay interval, which only runs while the pet is alive. Returns the
        record it posts to the shared store. */
    method Tick() returns (posted: Option<StateWrite>)
      requires Valid()
      modifies this
      ensures Valid()
      ensures !old(alive) ==> unchanged(this) && posted == None
      ensures old(alive) ==>
        stats == Decay(old(stats)) && petState == Classify(stats)
        && alive == (Classify(stats) != Dead)
        && posted == Some(StateWrite(stats, stats.health > 0.0))
      ensures disabled == old(disabled) && actionCount == old(actionCount)
    {
      if !alive {
        return None;
      }
      var next := Decay(stats);
      UpdatePetState(next);
      stats := next;
      posted := Some(StateWrite(next, next.health > 0.0));
      DeathCheck();
    }

    /** performAction, given what the action request returned. Ignored while dead or
        cooling down; otherwise sends the action with the current stats, starts the
        cooldown, and a success replaces the stats wholesale and counts the action.
        Returns the request body it sent, if any. */
    method PerformAction(action: Action, reply: ActionReply)
      returns (sent: Option<ActionServer.ActionRequest>)
      requires Valid()
      modifies this
      ensures Valid()
      ensures !old(alive) || old(disabled) ==> unchanged(this) && sent == None
      ensures old(alive) && !old(disabled) ==> sent == Some(ActionBody(action, old(stats)))
      ensures old(alive) && !old(disabled) && reply.Replied? && reply.response.Success? ==>
        disabled && stats == reply.response.stats && petState == Classify(stats)
        && alive == (Classify(stats) != Dead) && actionCount == old(actionCount) + 1
      ensures old(alive) && !old(disabled) && !(reply.Replied? && reply.response.Success?) ==>
        disabled && stats == old(stats) && petState == old(petState)
        && alive == old(alive) && actionCount == old(actionCount)
    {
      if !alive || disabled {
        return None;
      }
      sent := Some(ActionBody(action, stats));
      disabled := true;
      if reply.Replied? && reply.response.Success? {
        var s := reply.response.stats;
        stats := s;
        UpdatePetState(s);
        actionCount := actionCount + 1;
        DeathCheck();
      }
    }

    /** restartGame. Ignored while cooling down; otherwise starts the cooldown, and when
        the restart request did not throw, brings the pet back to its birth state. */
    method Restart(requestResolved: bool)
      requires Valid()
      modifies this
      ensures Valid()
      ensures old(disabled) ==> unchanged(this)
      ensures !old(disabled) && requestResolved ==>
        disabled && stats == Initial && petState == Idle && alive && actionCount == 0
      ensures !old(disabled) && !requestResolved ==>
        disabled && stats == old(stats) && petState == old(petState)
        && alive == old(alive) && actionCount == old(actionCount)
    {
      if disabled {
        return;
      }
      disabled := true;
      if requestResolved {
        stats := Initial;
        petState := Idle;
        alive := true;
        actionCount := 0;
      }
    }

    /** loadSharedState, given the parsed reply of a successful read (None when the read
        failed or was not OK). Only a reply carrying stats changes anything: the stats are
        replaced wholesale and aliveness follows the remote flag, then the death check. */
    method Sync(reply: Option<StateReply>)
      requires Valid()
      modifies this
      ensures Valid()
      ensures reply.None? || reply.value.stats.None? ==> unchanged(this)
      ensures reply.Some? && reply.value.stats.Some? ==>
        stats == reply.value.stats.value && petState == Classify(stats)
        && alive == SyncedAlive(reply.value.alive, stats)
      ensures disabled == old(disabled) && actionCount == old(actionCount)
    {
      if reply.None? || reply.value.stats.None? {
        return;
      }
      var s := reply.value.stats.value;
      stats := s;
      UpdatePetState(s);
      // The remote flag overrides whatever UpdatePetState set.
      alive := reply.value.alive != Some(false);
      DeathCheck();
    }

    /** The timeout that ends an action's or a restart's cooldown. */
    method ReleaseCooldown()
      requires Valid()
      modifies this
      ensures Valid()
      ensures !disabled
      ensures stats == old(stats) && petState == old(petState) && alive == old(alive)
      ensures actionCount == old(actionCount)
    {
      disabled := false;
    }

    /** getUrgencyMessage over the component's current stats. */
    function Urgency(): (m: string)
      reads this
      ensures m != "" <==> Classify(stats) in {Dead, Sleeping, Sick}
    {
      UrgencyMatchesCondition(stats);
      UrgencyMessage(stats)
    }
  }

  /** The body performAction posts: the action's name and the client's current stats. */
  function ActionBody(a: Action, s: Stats): (req: ActionServer.ActionRequest)
    ensures req.action.Some? && ActionServer.ParseAction(req.action.value) == Some(a)
    ensures req.currentStats == Some(s)
  {
    ActionServer.ActionRequest(Some(ActionName(a)), Some(s))
  }

  /** What the client receives for the body it sent, with a present context and in-range
      stats: a success whose stats are its own moved by the action's row of the effect
      table and clamped to [0, 100]. With PerformAction's contract this gives the client's
      new stats. */
  lemma ClientSeesEffect(ctx: ActionServer.Context, a: Action, s: Stats)
    requires ActionServer.Present(ctx.postId) && ActionServer.Present(ctx.userId)
    requires InRange(s)
    ensures var r := ActionServer.Resolve(ctx, ActionBody(a, s));
      r.Success? && r.stats == ActionServer.Shifted(s, ActionServer.Effect(a))
      && InRange(r.stats) && r.message != ""
  {
    ActionServer.ApplyMatchesTable(a, s);
  }
}

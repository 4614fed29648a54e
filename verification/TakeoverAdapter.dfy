/** The takeover adapter of joint_trajectory_policy_adapter.cpp as an object. */
module TakeoverAdapter {
  import opened Curves
  import opened RobotBase
  import P = Player
  import T = Takeover
  import Poses = JointTrajectory

  class JointTrajectoryPolicyAdapter {
    const cfg: T.Config
    var active: Option<nat>
    var source: seq<real>
    var previous: seq<real>
    var phaseStart: real
    var playbackStart: real
    var entryDuration: real
    var last: real
    var gain: real
    var sourceWeight: real
    var sequence: nat
    var status: InteractionStatus

    constructor (cfg: T.Config)
      requires T.ValidConfig(cfg)
      ensures this.cfg == cfg && Valid()
      ensures Snapshot() == T.Reset(cfg, Snapshot())
    {
      this.cfg := cfg;
      active, source, previous, status := None, [], Zeros(cfg.dim), NO_STATUS;
      phaseStart, playbackStart, entryDuration, last, gain, sourceWeight, sequence := 0.0, 0.0, 0.0, 0.0, 0.0, 0.0, 0;
    }

    ghost function Snapshot(): T.State
      reads this
    {
      T.State(active, source, previous, phaseStart, playbackStart, entryDuration, last, gain, sourceWeight,
              sequence, status)
    }

    ghost predicate Valid()
      reads this
    {
      T.ValidConfig(cfg) && T.Valid(cfg, Snapshot())
    }

    method Reset()
      requires Valid()
      modifies this
      ensures Valid() && Snapshot() == T.Reset(cfg, old(Snapshot()))
    {
      previous, source, active, status := Zeros(cfg.dim), [], None, NO_STATUS;
      phaseStart, playbackStart, last, sequence, gain, sourceWeight := 0.0, 0.0, 0.0, 0, 0.0, 0.0;
    }

    /** The last applied actions of the clip's joints become the source. */
    method CaptureBlendSource(c: T.ActionClip)
      requires T.ValidClip(c, cfg.dim) && |previous| == cfg.dim
      modifies `source
      ensures source == P.Pick(previous, T.Actions(c))
    {
      source := [];
      for i := 0 to |c.bindings|
        modifies `source
        invariant |source| == i && forall k | 0 <= k < i :: source[k] == previous[c.bindings[k].action]
      {
        source := source + [previous[c.bindings[i].action]];
      }
    }

    method BeginBlendOut(elapsed: real, number: nat)
      requires Valid()
      modifies `source, `sourceWeight, `phaseStart, `status
      ensures Snapshot() == T.BeginBlendOut(cfg, old(Snapshot()), elapsed, number)
    {
      if active.None? {
        status := status.(sequence := number, phase := Idle, progress := 0.0, action := "");
        return;
      }
      assert T.ValidClip(cfg.clips[active.value], cfg.dim);
      CaptureBlendSource(cfg.clips[active.value]);
      sourceWeight, phaseStart := gain, elapsed;
      status := status.(sequence := number, phase := BlendOut, progress := 1.0);
    }

    method PreparePolicySwitch(requested: bool, elapsed: real)
      requires Valid()
      modifies this
      ensures Valid() && Snapshot() == T.PreparePolicySwitch(cfg, old(Snapshot()), requested, elapsed)
    {
      T.PrepareKeepsValid(cfg, Snapshot(), requested, elapsed, []);
      if requested && active.Some? && status.phase != BlendOut {
        BeginBlendOut(elapsed, status.sequence);
      }
    }

    lemma HeardKeepsValid(s: T.State, number: nat)
      requires T.Valid(cfg, s)
      ensures T.Valid(cfg, s.(sequence := number, status := s.status.(accepted := true)))
      ensures s.active.Some? <==> P.Busy(s.status.phase)
    {}

    method HandleInteractionRequest(r: Interaction, elapsed: real)
      requires Valid()
      modifies this
      ensures Valid() && Snapshot() == T.HandleInteractionRequest(cfg, old(Snapshot()), r, elapsed)
    {
      hide T.BeginBlendOut, T.ValidConfig, T.Valid, P.Busy;
      T.HandleKeepsValid(cfg, Snapshot(), r, elapsed);
      HeardKeepsValid(Snapshot(), r.sequence);
      if r.operation == NoOperation || r.sequence == 0 || r.sequence <= sequence {
        return;
      }
      sequence := r.sequence;
      if r.operation == Cancel {
        status := status.(accepted := true);
        BeginBlendOut(elapsed, r.sequence);
        return;
      }
      if active.Some? && P.Busy(status.phase) {
        status := status.(sequence := r.sequence, accepted := false);
        return;
      }
      var found := T.Find(cfg.clips, r.action, 0);
      if found.None? {
        status := InteractionStatus(r.sequence, false, Rejected, 0.0, r.action);
        return;
      }
      active, gain, source := found, 0.0, [];
      phaseStart, playbackStart, entryDuration := elapsed, elapsed + cfg.blendIn, cfg.blendIn;
      status := InteractionStatus(r.sequence, true, BlendIn, 0.0, r.action);
    }

    method MeasureEntry(c: T.ActionClip, positions: seq<real>)
      requires T.ValidClip(c, cfg.dim) && T.Covers(c, positions) && cfg.measuredVelocity > 0.0 && source == []
      modifies `source, `entryDuration
      ensures source == T.Measured(c, positions, cfg.dim)
      ensures entryDuration == T.EntryTime(c, positions, cfg.measuredVelocity, cfg.dim, |c.bindings|)
    {
      entryDuration := 0.0;
      for i := 0 to |c.bindings|
        modifies `source, `entryDuration
        invariant |source| == i
        invariant forall k | 0 <= k < i :: source[k] == T.ToNormalized(c.bindings[k], positions[c.bindings[k].joint])
        invariant entryDuration == T.EntryTime(c, positions, cfg.measuredVelocity, cfg.dim, i)
      {
        var position := positions[c.bindings[i].joint];
        source := source + [T.ToNormalized(c.bindings[i], position)];
        entryDuration := Max(entryDuration, Abs(P.Position(c.clip, i, 0.0) - position) / cfg.measuredVelocity);
      }
    }

    /** Negative time is an error. */
    method PrepareInputs(elapsed: real, positions: seq<real>) returns (ok: bool)
      requires Valid() && (T.Measures(cfg, Snapshot()) ==> T.Covers(cfg.clips[active.value], positions))
      modifies this
      ensures Valid() && ok == (elapsed >= 0.0)
      ensures Snapshot() == if ok then T.PrepareInputs(cfg, old(Snapshot()), elapsed, positions) else old(Snapshot())
    {
      T.PrepareKeepsValid(cfg, Snapshot(), false, elapsed, positions);
      ok := elapsed >= 0.0;
      if !ok {
        return;
      }
      last := elapsed;
      if active.Some? && status.phase == BlendIn && source == [] && cfg.measuredVelocity > 0.0 {
        assert T.ValidClip(cfg.clips[active.value], cfg.dim);
        MeasureEntry(cfg.clips[active.value], positions);
        playbackStart := phaseStart + entryDuration;
      }
    }

    /** The clock of the active clip; a clip that ends starts its return here. */
    method AdvanceClock(c: T.ActionClip) returns (blend: real, playback: real)
      requires Valid() && active.Some? && c == cfg.clips[active.value]
      modifies `status, `source, `sourceWeight, `phaseStart
      ensures T.ValidClip(c, cfg.dim)
      ensures var s := old(Snapshot());
              && status == s.status.(phase := T.PhaseNow(cfg, s), progress := T.ProgressNow(cfg, s))
              && blend == T.EntryBlend(cfg, s) && playback == T.PlaybackNow(cfg, s)
              && source == (if T.EndsNow(cfg, s) then [] else T.Captured(cfg, s))
              && sourceWeight == (if T.EndsNow(cfg, s) then 1.0 else s.sourceWeight)
              && phaseStart == (if T.EndsNow(cfg, s) then s.last else s.phaseStart)
    {
      hide T.BlendFraction, P.Duration, T.Target, T.Actions, T.ValidConfig, T.Valid, P.Pick;
      ghost var s := Snapshot();
      ActiveInRange(s);
      if source == [] {
        CaptureBlendSource(c);
      }
      blend, playback := 1.0, 0.0;
      if status.phase == BlendIn {
        blend := if entryDuration <= 0.0 then 1.0 else T.BlendFraction(cfg, (last - phaseStart) / entryDuration);
        if blend >= 1.0 {
          status := status.(phase := Playing);
        }
      }
      assert blend == T.EntryBlend(cfg, s) && (status.phase in {Playing, Holding} <==> T.Runs(cfg, s));
      if status.phase == Playing || status.phase == Holding {
        playback := RunClip(c);
      }
    }

    predicate HoldsAt(c: T.ActionClip, duration: real)
      reads this
    {
      c.clip.config.hold && (c.maxHold <= 0.0 || last - playbackStart - duration < c.maxHold)
    }

    /** A clip that runs: its progress, and what comes at its end. */
    method RunClip(c: T.ActionClip) returns (playback: real)
      requires T.ValidClip(c, cfg.dim)
      modifies `status, `source, `sourceWeight, `phaseStart
      ensures var played, duration := Max(0.0, last - playbackStart), P.Duration(c.clip);
              var over := played >= duration; var ends := over && !HoldsAt(c, duration);
              && playback == (if over then duration else played)
              && status == old(status).(
                   progress := if duration <= 0.0 then 1.0 else Clamp(played / duration, 0.0, 1.0),
                   phase := if !over then old(status.phase) else if ends then BlendOut else Holding)
              && source == (if ends then [] else old(source))
              && sourceWeight == (if ends then 1.0 else old(sourceWeight))
              && phaseStart == (if ends then last else old(phaseStart))
    {
      hide P.Duration;
      playback := Max(0.0, last - playbackStart);
      var duration := P.Duration(c.clip);
      status := status.(progress := if duration <= 0.0 then 1.0 else Clamp(playback / duration, 0.0, 1.0));
      if playback >= duration {
        playback := duration;
        if HoldsAt(c, duration) {
          status := status.(phase := Holding);
        } else {
          status := status.(phase := BlendOut);
          phaseStart, sourceWeight, source := last, 1.0, [];
        }
      }
    }

    /** The clip's frame at the time of its end becomes the source. */
    method CaptureFrame(c: T.ActionClip, playback: real)
      requires T.ValidClip(c, cfg.dim) && source == []
      modifies `source
      ensures source == T.Target(c, playback, cfg.dim)
    {
      for i := 0 to |c.bindings|
        modifies `source
        invariant |source| == i && forall k | 0 <= k < i :: source[k] == T.Target(c, playback, cfg.dim)[k]
      {
        source := source + [T.ToNormalized(c.bindings[i], P.Position(c.clip, i, playback))];
      }
    }

    method BlendBack(c: T.ActionClip, alpha: real, action: array<real>)
      requires T.ValidClip(c, cfg.dim) && |source| == |c.bindings| && action.Length == cfg.dim
      modifies action
      ensures var input := old(action[..]);
              action[..] == P.Place(input, T.Actions(c), MixPose(source, P.Pick(input, T.Actions(c)), alpha))
    {
      ghost var input, indices := action[..], T.Actions(c);
      ghost var values := MixPose(source, P.Pick(input, indices), alpha);
      for i := 0 to |c.bindings|
        invariant forall k | 0 <= k < i :: action[indices[k]] == values[k]
        invariant forall k | i <= k < |indices| :: action[indices[k]] == input[indices[k]]
        invariant forall j | 0 <= j < action.Length :: j !in indices ==> action[j] == input[j]
      {
        var index := c.bindings[i].action;
        assert index == indices[i];
        action[index] := Mix(source[i], action[index], alpha);
      }
      Poses.PlacedExactly(input, indices, values, action[..]);
    }

    method Follow(c: T.ActionClip, playback: real, entering: bool, blend: real, action: array<real>)
      requires T.ValidClip(c, cfg.dim) && |source| == |c.bindings| && action.Length == cfg.dim
      modifies action
      ensures var target := T.Target(c, playback, cfg.dim);
              action[..] == P.Place(old(action[..]), T.Actions(c),
                                    if entering then MixPose(source, target, blend) else target)
    {
      ghost var input, indices, target := action[..], T.Actions(c), T.Target(c, playback, cfg.dim);
      ghost var values := if entering then MixPose(source, target, blend) else target;
      for i := 0 to |c.bindings|
        invariant forall k | 0 <= k < i :: action[indices[k]] == values[k]
        invariant forall j | 0 <= j < action.Length :: j !in indices ==> action[j] == input[j]
      {
        var goal := T.ToNormalized(c.bindings[i], P.Position(c.clip, i, playback));
        assert c.bindings[i].action == indices[i];
        action[c.bindings[i].action] := if entering then Mix(source[i], goal, blend) else goal;
      }
      Poses.PlacedExactly(input, indices, values, action[..]);
    }

    method Return(c: T.ActionClip, playback: real, action: array<real>)
      requires T.ValidClip(c, cfg.dim) && (source == [] || |source| == |c.bindings|) && action.Length == cfg.dim
      modifies `active, `source, `gain, `status, action
      ensures var from := if old(source) == [] then T.Target(c, playback, cfg.dim) else old(source);
              var alpha := T.ReturnBlend(cfg, old(Snapshot()));
              && action[..] == P.Place(old(action[..]), T.Actions(c),
                                       MixPose(from, P.Pick(old(action[..]), T.Actions(c)), alpha))
              && gain == Times(sourceWeight, 1.0 - alpha)
              && active == (if alpha >= 1.0 then None else old(active))
              && source == (if alpha >= 1.0 then [] else from)
              && status == (if alpha >= 1.0 then old(status).(phase := Finished, progress := 1.0) else old(status))
    {
      hide T.BlendFraction, T.Target, T.Actions, MixPose, P.Place, P.Pick, Times;
      if source == [] {
        CaptureFrame(c, playback);
      }
      var alpha := if cfg.blendOut <= 0.0 then 1.0 else T.BlendFraction(cfg, (last - phaseStart) / cfg.blendOut);
      gain := Times(sourceWeight, 1.0 - alpha);
      BlendBack(c, alpha, action);
      if alpha >= 1.0 {
        active, source := None, [];
        status := status.(phase := Finished, progress := 1.0);
      }
    }

    /** What the clock leaves behind: the turned state, but for the source of a clip that ends. */
    ghost predicate Clocked(s: T.State, mid: T.State)
      requires T.ValidConfig(cfg) && T.Valid(cfg, s) && s.active.Some?
    {
      && mid == s.(status := mid.status, source := mid.source, sourceWeight := mid.sourceWeight,
                   phaseStart := mid.phaseStart)
      && mid.status == s.status.(phase := T.PhaseNow(cfg, s), progress := T.ProgressNow(cfg, s))
      && mid.source == (if T.EndsNow(cfg, s) then [] else T.Captured(cfg, s))
      && mid.sourceWeight == (if T.EndsNow(cfg, s) then 1.0 else s.sourceWeight)
      && mid.phaseStart == (if T.EndsNow(cfg, s) then s.last else s.phaseStart)
    }

    lemma TurnedFrom(s: T.State, mid: T.State)
      requires T.ValidConfig(cfg) && T.Valid(cfg, s) && s.active.Some? && Clocked(s, mid)
      ensures T.ValidClip(T.Clip(cfg, s), cfg.dim)
      ensures var from := if mid.source == [] then T.Target(T.Clip(cfg, s), T.PlaybackNow(cfg, s), cfg.dim) else mid.source;
              T.Turned(cfg, s) == mid.(source := from, status := s.status)
      ensures T.PhaseNow(cfg, s) != BlendOut ==> mid.source != [] && |mid.source| == |T.Clip(cfg, s).bindings|
      ensures mid.source == [] || |mid.source| == |T.Clip(cfg, s).bindings|
      ensures T.ReturnBlend(cfg, T.Turned(cfg, s)) == T.ReturnBlend(cfg, mid)
    {
      assert T.ValidClip(T.Clip(cfg, s), cfg.dim);
      assert T.Captured(cfg, s) != [];
      hide T.EntryBlend, P.Duration, T.BlendFraction;
    }

    lemma ReturnsFrom(s: T.State, mid: T.State, input: seq<real>)
      requires T.ValidConfig(cfg) && T.Valid(cfg, s) && s.active.Some? && Clocked(s, mid)
      requires mid.status.phase == BlendOut && |input| == cfg.dim
      ensures T.ValidClip(T.Clip(cfg, s), cfg.dim)
      ensures mid.source == [] || |mid.source| == |T.Clip(cfg, s).bindings|
      ensures var c := T.Clip(cfg, s);
              var from := if mid.source == [] then T.Target(c, T.PlaybackNow(cfg, s), cfg.dim) else mid.source;
              var alpha := T.ReturnBlend(cfg, mid);
              T.Compose(cfg, s, input) ==
                (MixPose(from, P.Pick(input, T.Actions(c)), alpha),
                 mid.(gain := Times(mid.sourceWeight, 1.0 - alpha),
                      active := if alpha >= 1.0 then None else mid.active,
                      source := if alpha >= 1.0 then [] else from,
                      status := if alpha >= 1.0 then mid.status.(phase := Finished, progress := 1.0) else mid.status))
    {
      TurnedFrom(s, mid);
      hide T.ReturnBlend, T.PhaseNow, T.ProgressNow, T.PlaybackNow, T.Turned, T.Target, T.EndsNow, T.Captured, MixPose;
    }

    lemma FollowsFrom(s: T.State, mid: T.State, input: seq<real>)
      requires T.ValidConfig(cfg) && T.Valid(cfg, s) && s.active.Some? && Clocked(s, mid)
      requires mid.status.phase != BlendOut && |input| == cfg.dim
      ensures T.ValidClip(T.Clip(cfg, s), cfg.dim) && |mid.source| == |T.Clip(cfg, s).bindings|
      ensures var target := T.Target(T.Clip(cfg, s), T.PlaybackNow(cfg, s), cfg.dim);
              T.Compose(cfg, s, input) ==
                (if mid.status.phase == BlendIn then MixPose(mid.source, target, T.EntryBlend(cfg, s)) else target,
                 mid.(gain := if mid.status.phase == BlendIn && cfg.measuredVelocity <= 0.0
                              then T.EntryBlend(cfg, s) else 1.0))
    {
      TurnedFrom(s, mid);
      hide T.ReturnBlend, T.PhaseNow, T.ProgressNow, T.PlaybackNow, T.Turned, T.Target, T.EndsNow, T.Captured, MixPose;
    }

    lemma ActiveInRange(s: T.State)
      requires T.ValidConfig(cfg) && T.Valid(cfg, s) && s.active.Some?
      ensures s.active.value < |cfg.clips| && T.ValidClip(T.Clip(cfg, s), cfg.dim)
      ensures |s.previous| == cfg.dim && (s.source == [] || |s.source| == |T.Clip(cfg, s).bindings|)
    {}

    method ComposeAction(action: array<real>)
      requires Valid() && active.Some? && action.Length == cfg.dim
      modifies `active, `source, `sourceWeight, `phaseStart, `gain, `status, action
      ensures T.ValidClip(cfg.clips[old(active.value)], cfg.dim)
      ensures var s := old(Snapshot()); var composed := T.Compose(cfg, s, old(action[..]));
              Snapshot() == composed.1 && action[..] == P.Place(old(action[..]), T.Actions(T.Clip(cfg, s)), composed.0)
    {
      hide T.Compose, T.EntryBlend, T.ReturnBlend, T.PlaybackNow, T.ProgressNow, T.PhaseNow, T.Target, T.EndsNow,
           T.Captured, T.Turned, T.ValidClip, T.ValidConfig, T.Valid, T.Actions, MixPose, P.Place, P.Pick, Times;
      ghost var s, input := Snapshot(), action[..];
      ActiveInRange(s);
      var c := cfg.clips[active.value];
      var blend, playback := AdvanceClock(c);
      ghost var mid := Snapshot();
      if status.phase == BlendOut {
        ReturnsFrom(s, mid, input);
        Return(c, playback, action);
      } else {
        FollowsFrom(s, mid, input);
        gain := if status.phase == BlendIn && cfg.measuredVelocity <= 0.0 then blend else 1.0;
        Follow(c, playback, status.phase == BlendIn, blend, action);
      }
    }

    /** An action of the wrong dimension is an error. */
    method OnAction(action: array<real>) returns (ok: bool)
      requires Valid()
      modifies this, action
      ensures Valid() && ok == (action.Length == cfg.dim)
      ensures Snapshot() == T.OnAction(cfg, old(Snapshot()), old(action[..]))
      ensures action[..] == if ok then T.Applied(cfg, old(Snapshot()), old(action[..])) else old(action[..])
    {
      T.ComposeKeepsValid(cfg, Snapshot(), action[..]);
      hide T.Compose;
      ok := action.Length == cfg.dim;
      if !ok {
        return;
      }
      if active.Some? {
        ComposeAction(action);
      }
      previous := action[..];
    }

    lemma Moved(from: real, to: real, weight: real)
      ensures from + weight * (to - from) == Mix(from, to, weight)
    {}

    /** Move the gains at the clip's joints towards the clip's. */
    method Overlay(c: T.ActionClip, gains: seq<real>, policy: array<real>)
      requires T.ValidClip(c, cfg.dim) && |gains| == |c.bindings|
      requires forall i | 0 <= i < |c.clip.config.joints| :: c.clip.config.joints[i] < policy.Length
      modifies policy
      ensures policy[..] == T.JointGains(c.clip.config.joints, old(policy[..]), gains, gain)
    {
      ghost var joints, p := c.clip.config.joints, policy[..];
      hide Mix;
      for i := 0 to |c.bindings|
        invariant forall k | 0 <= k < i :: policy[joints[k]] == Mix(p[joints[k]], gains[k], gain)
        invariant forall k | i <= k < |joints| :: policy[joints[k]] == p[joints[k]]
        invariant forall j | 0 <= j < policy.Length :: j !in joints ==> policy[j] == p[j]
      {
        var joint := c.bindings[i].joint;
        Moved(policy[joint], gains[i], gain);
        policy[joint] := policy[joint] + gain * (gains[i] - policy[joint]);
      }
      Poses.PlacedExactly(p, joints, MixPose(P.Pick(p, joints), gains, gain), policy[..]);
    }

    /** Only a clip with gains of its own changes any. */
    method ApplyJointGains(kp: array<real>, kd: array<real>)
      requires Valid() && kp != kd && kp.Length == kd.Length
      requires active.Some? ==> forall i | 0 <= i < |cfg.clips[active.value].clip.config.joints| ::
                 cfg.clips[active.value].clip.config.joints[i] < kp.Length
      modifies kp, kd
      ensures active.None? || cfg.clips[active.value].kp == [] ==> kp[..] == old(kp[..]) && kd[..] == old(kd[..])
      ensures active.Some? && cfg.clips[active.value].kp != [] ==>
                var c := cfg.clips[active.value];
                && T.ValidClip(c, cfg.dim)
                && kp[..] == T.JointGains(c.clip.config.joints, old(kp[..]), c.kp, gain)
                && kd[..] == T.JointGains(c.clip.config.joints, old(kd[..]), c.kd, gain)
    {
      if active.None? || cfg.clips[active.value].kp == [] {
        return;
      }
      var c := cfg.clips[active.value];
      assert T.ValidClip(c, cfg.dim);
      hide T.JointGains;
      Overlay(c, c.kp, kp);
      Overlay(c, c.kd, kd);
    }
  }
}

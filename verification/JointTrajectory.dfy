/** The player and the TRAJECTORY mode as objects: joint_trajectory.cpp, state_trajectory.cpp. */
module JointTrajectory {
  import opened Curves
  import opened RobotBase
  import P = Player

  /** A pose is what placing makes of it exactly if it agrees joint by joint. */
  lemma PlacedExactly(pose: seq<real>, joints: seq<nat>, values: seq<real>, r: seq<real>)
    requires |values| == |joints| && P.Distinct(joints) && |r| == |pose|
    requires forall i | 0 <= i < |joints| :: joints[i] < |pose|
    requires forall i | 0 <= i < |joints| :: r[joints[i]] == values[i]
    requires forall j | 0 <= j < |pose| :: j !in joints ==> r[j] == pose[j]
    ensures r == P.Place(pose, joints, values)
  {
    var placed := P.Place(pose, joints, values);
    forall j | 0 <= j < |pose|
      ensures r[j] == placed[j]
    {
      if j in joints {
        var i :| 0 <= i < |joints| && joints[i] == j;
        assert r[joints[i]] == placed[joints[i]];
      }
    }
  }

  class Player {
    const cfg: P.Config
    var active: Option<nat>
    var previous: seq<real>
    var source: seq<real>
    var phaseStart: real
    var playbackStart: real
    var returnDuration: real
    var sequence: nat
    var status: InteractionStatus

    constructor (cfg: P.Config)
      requires P.ValidConfig(cfg)
      ensures this.cfg == cfg && Snapshot() == P.Initial(cfg)
    {
      this.cfg := cfg;
      active, previous, source := None, Zeros(cfg.dof), [];
      phaseStart, playbackStart, returnDuration, sequence, status := 0.0, 0.0, -1.0, 0, NO_STATUS;
    }

    ghost function Snapshot(): P.State
      reads this
    {
      P.State(active, previous, source, phaseStart, playbackStart, returnDuration, sequence, status)
    }

    ghost predicate Valid()
      reads this
    {
      P.ValidConfig(cfg) && P.Valid(cfg, Snapshot())
    }

    method Reset(position: seq<real>) returns (ok: bool)
      requires Valid()
      modifies this
      ensures Valid() && ok == (|position| == cfg.dof)
      ensures Snapshot() == P.Reset(cfg, old(Snapshot()), position)
    {
      ok := |position| == cfg.dof;
      if ok {
        previous, active, source, sequence, status := position, None, [], 0, NO_STATUS;
      }
    }

    /** Remember where the clip's joints are now. */
    method CaptureSource(joints: seq<nat>)
      requires forall i | 0 <= i < |joints| :: joints[i] < |previous|
      modifies `source
      ensures source == P.Pick(previous, joints)
    {
      source := [];
      for i := 0 to |joints|
        modifies `source
        invariant source == P.Pick(previous, joints[..i])
      {
        source := source + [previous[joints[i]]];
        assert joints[..i + 1] == joints[..i] + [joints[i]];
      }
      assert joints[..|joints|] == joints;
    }

    method Stop(elapsed: real)
      requires Valid()
      modifies `source, `phaseStart, `returnDuration, `status
      ensures var again := old(status.phase) == BlendOut;
              && source == (if active.Some? && !again then P.Pick(previous, P.Joints(cfg, old(Snapshot()))) else old(source))
              && phaseStart == (if active.Some? && !again then elapsed else old(phaseStart))
              && returnDuration == (if active.Some? && !again then -1.0 else old(returnDuration))
              && status == (if active.None? then InteractionStatus(old(status.sequence), true, Idle, 0.0, "")
                            else if again then old(status).(accepted := true)
                            else old(status).(accepted := true, phase := BlendOut, progress := 1.0))
    {
      status := status.(accepted := true);
      if active.Some? {
        if status.phase == BlendOut {
          return;
        }
        assert P.ValidClip(cfg.clips[active.value], cfg.dof);
        CaptureSource(cfg.clips[active.value].config.joints);
        phaseStart, returnDuration := elapsed, -1.0;
        status := status.(phase := BlendOut, progress := 1.0);
      } else {
        status := status.(phase := Idle, action := "", progress := 0.0);
      }
    }

    method StartClip(found: nat, action: Name, elapsed: real)
      requires P.ValidConfig(cfg) && found < |cfg.clips| && |previous| == cfg.dof
      modifies `active, `source, `phaseStart, `playbackStart, `status
      ensures P.ValidClip(cfg.clips[found], cfg.dof)
      ensures active == Some(found) && source == P.Pick(previous, cfg.clips[found].config.joints)
      ensures phaseStart == elapsed && playbackStart == elapsed + cfg.blendIn
      ensures status == old(status).(accepted := true, phase := BlendIn, action := action, progress := 0.0)
    {
      active := Some(found);
      assert P.ValidClip(cfg.clips[found], cfg.dof);
      CaptureSource(cfg.clips[found].config.joints);
      phaseStart, playbackStart := elapsed, elapsed + cfg.blendIn;
      status := status.(accepted := true, phase := BlendIn, action := action, progress := 0.0);
    }

    /** Negative time is an error. */
    method Request(r: Interaction, elapsed: real) returns (ok: bool)
      requires Valid()
      modifies this
      ensures Valid() && ok == (elapsed >= 0.0)
      ensures Snapshot() == P.Request(cfg, old(Snapshot()), r, elapsed)
    {
      P.RequestKeepsValid(cfg, Snapshot(), r, elapsed);
      ok := elapsed >= 0.0;
      if !ok || r.operation == NoOperation || r.sequence == 0 || r.sequence <= sequence {
        return;
      }
      sequence := r.sequence;
      status := status.(sequence := r.sequence);
      if r.operation == Cancel {
        Stop(elapsed);
        return;
      }
      if active.Some? {
        status := status.(accepted := false);
        return;
      }
      var found := P.Find(cfg.clips, r.action, 0);
      if found.None? {
        status := status.(accepted := false, phase := Rejected, action := r.action, progress := 0.0);
        return;
      }
      StartClip(found.value, r.action, elapsed);
    }

    method CaptureEnd(clip: P.Clip, elapsed: real)
      requires P.ValidClip(clip, cfg.dof) && |source| == |clip.config.joints|
      modifies `source
      ensures source == P.Frame(clip, elapsed)
    {
      for i := 0 to |source|
        modifies `source
        invariant |source| == |clip.config.joints|
        invariant forall k | 0 <= k < i :: source[k] == P.Position(clip, k, elapsed)
      {
        source := source[i := P.Position(clip, i, elapsed)];
      }
    }

    /** How long the return takes at the permitted speed. */
    method MeasureReturn(joints: seq<nat>, position: array<real>) returns (duration: real)
      requires P.ValidConfig(cfg) && |source| == |joints| && position.Length == cfg.dof
      requires forall i | 0 <= i < |joints| :: joints[i] < cfg.dof
      ensures duration == P.ReturnDuration(cfg, source, P.Pick(position[..], joints))
    {
      duration := cfg.blendOut;
      if cfg.maxVelocity > 0.0 {
        ghost var goal := P.Pick(position[..], joints);
        for i := 0 to |source|
          invariant duration == P.ReturnTime(cfg, source, goal, i)
        {
          var distance := Abs(position[joints[i]] - source[i]);
          duration := Max(duration, 1.875 * distance / cfg.maxVelocity);
        }
      }
    }

    /** Pull the clip's joints from the source towards their input. */
    method BlendBack(joints: seq<nat>, alpha: real, position: array<real>)
      requires |source| == |joints| && P.Distinct(joints)
      requires forall i | 0 <= i < |joints| :: joints[i] < position.Length
      modifies position
      ensures var input := old(position[..]);
              position[..] == P.Place(input, joints, MixPose(source, P.Pick(input, joints), alpha))
    {
      ghost var input := position[..];
      ghost var values := MixPose(source, P.Pick(input, joints), alpha);
      for i := 0 to |source|
        invariant forall k | 0 <= k < i :: position[joints[k]] == values[k]
        invariant forall k | i <= k < |joints| :: position[joints[k]] == input[joints[k]]
        invariant forall j | 0 <= j < position.Length :: j !in joints ==> position[j] == input[j]
      {
        var joint := joints[i];
        position[joint] := Mix(source[i], position[joint], alpha);
      }
      PlacedExactly(input, joints, values, position[..]);
    }

    /** Put the clip's joints on the clip, or on their way from the source to it. */
    method Follow(clip: P.Clip, playback: real, entering: bool, blend: real, position: array<real>)
      requires P.ValidClip(clip, position.Length) && |source| == |clip.config.joints|
      modifies position
      ensures var target := P.Frame(clip, playback);
              position[..] == P.Place(old(position[..]), clip.config.joints,
                                      if entering then MixPose(source, target, blend) else target)
    {
      var joints := clip.config.joints;
      ghost var input, target := position[..], P.Frame(clip, playback);
      ghost var values := if entering then MixPose(source, target, blend) else target;
      for i := 0 to |source|
        invariant forall k | 0 <= k < i :: position[joints[k]] == values[k]
        invariant forall j | 0 <= j < position.Length :: j !in joints ==> position[j] == input[j]
      {
        var value := P.Position(clip, i, playback);
        position[joints[i]] := if entering then Mix(source[i], value, blend) else value;
      }
      PlacedExactly(input, joints, values, position[..]);
    }

    /** The clock of the active clip: leaves the phase and the reported progress of this tick. */
    method AdvancePlayback(clip: P.Clip, elapsed: real) returns (playback: real)
      requires Valid() && active.Some? && clip == cfg.clips[active.value]
      requires status.phase != BlendIn || P.EntryBlend(cfg, Snapshot(), elapsed) < 1.0
      modifies `source, `phaseStart, `returnDuration, `status
      ensures var s, p := old(Snapshot()), P.Advance(cfg, old(Snapshot()), elapsed);
              && status == s.status.(phase := p.phase, progress := p.shown)
              && playback == p.playback
              && source == (if p.ended then P.Frame(clip, p.playback) else s.source)
              && phaseStart == (if p.ended then elapsed else s.phaseStart)
              && returnDuration == (if p.ended then -1.0 else s.returnDuration)
    {
      assert P.ValidClip(clip, cfg.dof);
      playback := 0.0;
      if status.phase == Playing || status.phase == Holding {
        playback := Max(0.0, elapsed - playbackStart);
        var duration := P.Duration(clip);
        status := status.(progress := if duration == 0.0 then 1.0 else Clamp(playback / duration, 0.0, 1.0));
        if playback >= duration {
          playback := duration;
          if clip.config.hold {
            status := status.(phase := Holding);
          } else {
            status := status.(phase := BlendOut);
            phaseStart, returnDuration := elapsed, -1.0;
            CaptureEnd(clip, duration);
          }
        }
      }
    }

    /** Negative time or a wrong dimension is an error. */
    method Apply(elapsed: real, position: array<real>) returns (ok: bool)
      requires Valid()
      modifies this, position
      ensures Valid() && ok == (elapsed >= 0.0 && position.Length == cfg.dof)
      ensures Snapshot() == P.Apply(cfg, old(Snapshot()), elapsed, old(position[..]))
      ensures position[..] == P.Output(cfg, old(Snapshot()), elapsed, old(position[..]))
    {
      ghost var s, input := Snapshot(), position[..];
      P.ApplyKeepsValid(cfg, s, elapsed, input);
      ok := elapsed >= 0.0 && position.Length == cfg.dof;
      if !ok {
        return;
      }
      if active.Some? {
        PlayActive(elapsed, position);
      }
      previous := position[..];
    }

    /** One tick of the way back to the input. */
    method Return(clip: P.Clip, elapsed: real, position: array<real>)
      requires P.ValidConfig(cfg) && P.ValidClip(clip, cfg.dof) && position.Length == cfg.dof
      requires |source| == |clip.config.joints|
      modifies `active, `returnDuration, `status, position
      ensures var goal := P.Pick(old(position[..]), clip.config.joints);
              var alpha := P.ReturnBlend(cfg, elapsed, phaseStart, returnDuration);
              && returnDuration == (if old(returnDuration) < 0.0 then P.ReturnDuration(cfg, source, goal) else old(returnDuration))
              && position[..] == P.Place(old(position[..]), clip.config.joints, MixPose(source, goal, alpha))
              && active == (if alpha >= 1.0 then None else old(active))
              && status == (if alpha >= 1.0 then old(status).(phase := Finished, progress := 1.0) else old(status))
    {
      if returnDuration < 0.0 {
        returnDuration := MeasureReturn(clip.config.joints, position);
      }
      var progress := if returnDuration == 0.0 then 1.0 else Clamp((elapsed - phaseStart) / returnDuration, 0.0, 1.0);
      var alpha := if cfg.maxVelocity > 0.0 then Quintic(progress) else SmoothStep(progress);
      assert alpha == P.ReturnBlend(cfg, elapsed, phaseStart, returnDuration);
      BlendBack(clip.config.joints, alpha, position);
      if alpha >= 1.0 {
        active := None;
        status := status.(phase := Finished, progress := 1.0);
      }
    }

    /** The clock of the active clip, with the end of the blend-in. */
    method AdvanceClock(clip: P.Clip, elapsed: real) returns (blend: real, playback: real)
      requires Valid() && active.Some? && clip == cfg.clips[active.value]
      modifies `source, `phaseStart, `returnDuration, `status
      ensures var s, p := old(Snapshot()), P.Advance(cfg, old(Snapshot()), elapsed);
              && status == s.status.(phase := p.phase, progress := p.shown)
              && playback == p.playback && blend == P.EntryBlend(cfg, s, elapsed)
              && source == (if p.ended then P.Frame(clip, p.playback) else s.source)
              && phaseStart == (if p.ended then elapsed else s.phaseStart)
              && returnDuration == (if p.ended then -1.0 else s.returnDuration)
    {
      ghost var s := Snapshot();
      assert P.ValidClip(clip, cfg.dof);
      hide Cubic, P.Duration;
      blend := 1.0;
      if status.phase == BlendIn {
        blend := if cfg.blendIn == 0.0 then 1.0 else SmoothStep((elapsed - phaseStart) / cfg.blendIn);
        CubicUnit(1.0);
        assert blend == P.EntryBlend(cfg, s, elapsed);
        if blend >= 1.0 {
          status := status.(phase := Playing);
        }
      }
      playback := AdvancePlayback(clip, elapsed);
    }

    method PlayActive(elapsed: real, position: array<real>)
      requires Valid() && active.Some? && elapsed >= 0.0 && position.Length == cfg.dof
      modifies `active, `source, `phaseStart, `returnDuration, `status, position
      ensures P.ValidClip(cfg.clips[old(active.value)], cfg.dof)
      ensures var s, played := old(Snapshot()), P.Play(cfg, old(Snapshot()), elapsed, old(position[..]));
              Snapshot() == played.1 && position[..] == P.Place(old(position[..]), P.Joints(cfg, s), played.0)
    {
      var clip := cfg.clips[active.value];
      assert P.ValidClip(clip, cfg.dof);
      ghost var s, p := Snapshot(), P.Advance(cfg, Snapshot(), elapsed);
      hide P.Advance, P.EntryBlend, P.ReturnBlend, P.ReturnDuration, P.Place, MixPose, P.Pick, P.Frame;
      var blend, playback := AdvanceClock(clip, elapsed);
      if status.phase == BlendOut {
        Return(clip, elapsed, position);
      } else {
        Follow(clip, playback, status.phase == BlendIn, blend, position);
      }
    }
  }

  /** TRAJECTORY: every tick hands the request to the player and starts from the ready pose. */
  class StateTrajectory {
    const player: Player
    const ready: seq<real>
    var elapsed: real
    var target: array<real>

    constructor (cfg: P.Config, ready: seq<real>)
      requires P.ValidConfig(cfg) && cfg.dof == |ready|
      ensures Valid() && fresh(player) && fresh(target) && this.ready == ready && player.cfg == cfg
    {
      this.ready, elapsed := ready, 0.0;
      player := new Player(cfg);
      target := new real[|ready|];
    }

    ghost predicate Valid()
      reads this, player
    {
      player.Valid() && player.cfg.dof == |ready| && target.Length == |ready|
    }

    method SetTarget(pose: seq<real>)
      requires |pose| == target.Length
      modifies target
      ensures target[..] == pose
    {
      for i := 0 to target.Length
        invariant forall k | 0 <= k < i :: target[k] == pose[k]
      {
        target[i] := pose[i];
      }
    }

    method OnEnter()
      requires Valid()
      modifies this`elapsed, player, target
      ensures Valid() && elapsed == 0.0 && target[..] == ready
      ensures player.Snapshot() == P.Reset(player.cfg, old(player.Snapshot()), ready)
    {
      elapsed := 0.0;
      var ok := player.Reset(ready);
      SetTarget(ready);
    }

    /** The player rejects nothing here as long as control time does not run backwards. */
    method Run(dt: real, request: Interaction) returns (ok: bool)
      requires Valid()
      modifies this`elapsed, player, target
      ensures Valid() && ok == (old(elapsed) >= 0.0)
      ensures ok ==>
                var asked := P.Request(player.cfg, old(player.Snapshot()), request, old(elapsed));
                && elapsed == old(elapsed) + dt
                && P.Valid(player.cfg, asked)
                && player.Snapshot() == P.Apply(player.cfg, asked, old(elapsed), ready)
                && target[..] == P.Output(player.cfg, asked, old(elapsed), ready)
    {
      ok := player.Request(request, elapsed);
      if !ok {
        return;
      }
      SetTarget(ready);
      ok := player.Apply(elapsed, target);
      elapsed := elapsed + dt;
    }
  }
}

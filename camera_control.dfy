/**
 * The camera hand-off of src/components/CameraControl.tsx. One participant
 * takes control of the camera through a shared live state; everyone else
 * follows the camera moves it publishes on a shared map, throttled to one
 * publish per `UpdateFrequency` milliseconds, and gets their own camera back
 * when control is released. Notifications of one's own writes (`local`) are
 * ignored. Time is passed in by the caller.
 */
module CameraControl {
  import opened Wrappers
  import opened Geometry

  /** Minimum time, in milliseconds, between two published camera moves. */
  const UpdateFrequency: int := 100

  const TakeLabel := "Take Camera Control"
  const ReleaseLabel := "Release Camera Control"

  /** A camera's position and rotation. */
  datatype CameraPose = CameraPose(position: Vec3, rotation: Vec3)

  /** A camera move written to the shared camera map, and the clock reading that let it through. */
  datatype CameraMove = CameraMove(at: int, pose: CameraPose)

  /** Consecutive publishes are at least `UpdateFrequency` apart. */
  ghost predicate Spaced(moves: seq<CameraMove>)
  {
    forall k :: 0 < k < |moves| ==> moves[k].at >= moves[k - 1].at + UpdateFrequency
  }

  /** Any two publishes, not only neighbours, are apart by `UpdateFrequency` per publish between them. */
  lemma {:induction false} SpacedApart(moves: seq<CameraMove>, j: nat, k: nat)
    requires Spaced(moves) && j <= k < |moves|
    ensures moves[k].at - moves[j].at >= UpdateFrequency * (k - j)
  {
    if j < k {
      SpacedApart(moves, j, k - 1);
    }
  }

  class CameraController {
    /** `initializeStartedRef.current` */
    var initialized: bool
    var remoteControlled: bool
    var takingControl: bool
    var lastTime: int
    /** The local camera's pose. */
    var camera: CameraPose
    /** `currentCameraPosition` / `currentCameraRotation`: None until first saved. */
    var saved: Option<CameraPose>
    /** The local camera reacts to the user's input (`attachControl` / `detachControl`). */
    var attached: bool
    var buttonDisabled: bool
    var buttonLabel: string
    /** Camera moves written to the shared camera map, oldest first. */
    var published: seq<CameraMove>
    /** Values written to the `takeControl` live state, oldest first. */
    var broadcast: seq<bool>

    /**
     * The button is disabled exactly while someone else has control; its label
     * says whether clicking takes or releases control; a pose is saved while
     * under remote control; publishes are spaced and none is later than
     * `lastTime`, and nothing is published before the listeners are wired.
     */
    ghost predicate Valid()
      reads this
    {
      && buttonDisabled == remoteControlled
      && buttonLabel == (if takingControl then ReleaseLabel else TakeLabel)
      && (remoteControlled ==> saved.Some?)
      && Spaced(published)
      && (|published| > 0 ==> published[|published| - 1].at <= lastTime)
      && (!initialized ==> published == [])
    }

    /** Before mounting: nobody has control, nothing is published, the camera sits at `pose`. */
    constructor (pose: CameraPose)
      ensures Valid() && !initialized
      ensures !remoteControlled && !takingControl && camera == pose && saved == None && attached
      ensures published == [] && broadcast == []
    {
      initialized := false;
      remoteControlled := false;
      takingControl := false;
      lastTime := 0;
      camera := pose;
      saved := None;
      attached := true;
      buttonDisabled := false;
      buttonLabel := TakeLabel;
      published := [];
      broadcast := [];
    }

    /** The mount effect: wire the button and the listeners once, starting the throttle clock at `now`. */
    method Mount(now: int)
      requires Valid()
      modifies this`initialized, this`lastTime
      ensures Valid() && initialized
      ensures old(initialized) ==> lastTime == old(lastTime)
      ensures !old(initialized) ==> lastTime == now
    {
      if initialized {
        return;
      }
      initialized := true;
      lastTime := now;
    }

    /**
     * A `valueChanged` notification on the camera map: while under remote
     * control, a remote move animates the local camera to `target`; local
     * writes and moves received while in control are ignored.
     */
    method OnValueChanged(target: CameraPose, local: bool)
      requires Valid() && initialized
      modifies this`camera
      ensures Valid()
      ensures camera == if !local && remoteControlled then target else old(camera)
    {
      if !local && remoteControlled {
        camera := target;
      }
    }

    /**
     * A `stateChanged` notification on `takeControl`: a remote `status`
     * disables the button and sets `remoteControlled`; on true the camera's
     * pose is saved and the user's input detached, on false the saved pose is
     * put back and the input attached. Local notifications change nothing.
     */
    method OnStateChanged(status: bool, local: bool)
      requires Valid() && initialized
      modifies this`buttonDisabled, this`remoteControlled, this`saved, this`camera, this`attached
      ensures Valid()
      ensures local ==> (remoteControlled == old(remoteControlled) && buttonDisabled == old(buttonDisabled)
                         && saved == old(saved) && camera == old(camera) && attached == old(attached))
      ensures !local ==> remoteControlled == status && buttonDisabled == status && attached == !status
      ensures !local && status ==> saved == Some(old(camera)) && camera == old(camera)
      ensures !local && !status ==> (saved == old(saved)
                                     && camera == (if old(saved).Some? then old(saved).value else old(camera)))
    {
      if !local {
        buttonDisabled := status;
        remoteControlled := status;
        if remoteControlled {
          saved := Some(camera);
          attached := false;
        } else {
          if saved.Some? {
            camera := saved.value;
          }
          attached := true;
        }
      }
    }

    /**
     * The camera's view matrix changed at `now`, the camera having moved to
     * `pose` (by the user's input or by an animation): when not under remote
     * control and at least `UpdateFrequency` ms after `lastTime`, publish
     * `pose` and restart the throttle at `later`, the clock read after the write.
     */
    method OnViewMatrixChanged(pose: CameraPose, now: int, later: int)
      requires Valid() && initialized
      requires now <= later
      modifies this`camera, this`published, this`lastTime
      ensures Valid()
      ensures camera == pose
      ensures var fire := !remoteControlled && now - old(lastTime) >= UpdateFrequency;
        && (fire ==> published == old(published) + [CameraMove(now, pose)] && lastTime == later)
        && (!fire ==> published == old(published) && lastTime == old(lastTime))
    {
      camera := pose;
      if !remoteControlled && now - lastTime >= UpdateFrequency {
        published := published + [CameraMove(now, pose)];
        lastTime := later;
      }
    }

    /** The take-control button: flip `takingControl`, broadcast it and relabel the button. */
    method Click()
      requires Valid() && initialized
      modifies this`takingControl, this`broadcast, this`buttonLabel
      ensures Valid()
      ensures takingControl == !old(takingControl)
      ensures broadcast == old(broadcast) + [takingControl]
      ensures buttonLabel == (if takingControl then ReleaseLabel else TakeLabel)
    {
      takingControl := !takingControl;
      broadcast := broadcast + [takingControl];
      buttonLabel := if takingControl then ReleaseLabel else TakeLabel;
    }
  }
  /**
   * A whole remote-control session seen from a follower: another participant
   * takes control, any number of its camera moves arrive, and it releases
   * control. The follower's camera ends exactly where it started and its
   * input is attached again.
   */
  method RemoteControlRoundTrip(c: CameraController, moves: seq<CameraPose>)
    requires c.Valid() && c.initialized && !c.remoteControlled
    modifies c
    ensures c.Valid()
    ensures c.camera == old(c.camera) && c.attached && !c.remoteControlled && !c.buttonDisabled
  {
    c.OnStateChanged(true, false);
    var i := 0;
    while i < |moves|
      invariant 0 <= i <= |moves|
      invariant c.Valid() && c.initialized && c.remoteControlled
      invariant c.saved == Some(old(c.camera))
    {
      c.OnValueChanged(moves[i], false);
      i := i + 1;
    }
    c.OnStateChanged(false, false);
  }
}

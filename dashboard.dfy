/**
 * The view state of EmergencyDashboard.jsx: three service toggles, the
 * split-pane drag that resizes the two panels, the Cancel and Confirm
 * buttons, and the frame grid. Widths are percentages; the pointer position
 * arrives already converted to a percentage of the window width.
 */
module Dashboard {

  /** Which emergency services are selected. */
  datatype Services = Services(police: bool, ambulance: bool, fire: bool)

  datatype Service = Police | Ambulance | Fire

  /** A frame card: its id, image source and clock label. */
  datatype Frame = Frame(id: nat, src: string, timestamp: string)

  const InitialServices: Services := Services(true, true, false)
  const InitialLeftWidth: real := 60.0
  const InitialRightWidth: real := 40.0
  const MinLeftWidth: real := 20.0
  const MaxLeftWidth: real := 80.0

  /** The number of sample frames, and how many of them the grid shows. */
  const SampleFrameCount: nat := 12
  const ShownFrameCount: nat := 4

  const CancelAlert: string := "Incident response cancelled"
  const ConfirmAlert: string := "Emergency services dispatched"

  function IsSelected(s: Services, svc: Service): (r: bool)
  {
    match svc
    case Police => s.police
    case Ambulance => s.ambulance
    case Fire => s.fire
  }

  /** The updater of a service button: `prev => ({...prev, svc: !prev.svc})`. */
  function Toggle(s: Services, svc: Service): (r: Services)
    ensures IsSelected(r, svc) == !IsSelected(s, svc)
    ensures forall other :: other != svc ==> IsSelected(r, other) == IsSelected(s, other)
  {
    match svc
    case Police => s.(police := !s.police)
    case Ambulance => s.(ambulance := !s.ambulance)
    case Fire => s.(fire := !s.fire)
  }

  /** Pressing the same button twice restores the selection. */
  lemma ToggleTwice(s: Services, svc: Service)
    ensures Toggle(Toggle(s, svc), svc) == s
  {
  }

  /** Buttons for different services commute. */
  lemma TogglesCommute(s: Services, a: Service, b: Service)
    ensures Toggle(Toggle(s, a), b) == Toggle(Toggle(s, b), a)
  {
  }

  /** `Math.max(20, Math.min(80, position))` */
  function ClampLeftWidth(position: real): (r: real)
    ensures MinLeftWidth <= r <= MaxLeftWidth
    ensures MinLeftWidth <= position <= MaxLeftWidth ==> r == position
    ensures position < MinLeftWidth ==> r == MinLeftWidth
    ensures position > MaxLeftWidth ==> r == MaxLeftWidth
  {
    var upper := if MaxLeftWidth < position then MaxLeftWidth else position;
    if MinLeftWidth > upper then MinLeftWidth else upper
  }

  /** Clamping is monotone (a pointer further right never moves the divider left) and idempotent. */
  lemma ClampMonotone(p: real, q: real)
    requires p <= q
    ensures ClampLeftWidth(p) <= ClampLeftWidth(q)
    ensures ClampLeftWidth(ClampLeftWidth(p)) == ClampLeftWidth(p)
  {
  }

  /** `n.toString().padStart(2, '0')` for n below 100. */
  function TwoDigits(n: nat): (r: string)
    requires n < 100
    ensures |r| == 2 && '0' <= r[0] <= '9' && '0' <= r[1] <= '9'
    ensures (r[0] as int - '0' as int) * 10 + (r[1] as int - '0' as int) == n
  {
    [(('0' as int) + n / 10) as char, (('0' as int) + n % 10) as char]
  }

  /** The twelve sample frames; `seconds[i]` stands for `Math.floor(Math.random() * 60)`. */
  function SampleFrames(seconds: seq<nat>): (r: seq<Frame>)
    requires |seconds| == SampleFrameCount
    requires forall i :: 0 <= i < |seconds| ==> seconds[i] < 60
    ensures |r| == SampleFrameCount
    ensures forall i :: 0 <= i < |r| ==> r[i].id == i + 1
    ensures forall i :: 0 <= i < |r| ==> r[i].timestamp == "14:" + TwoDigits(35 + i) + ":" + TwoDigits(seconds[i])
  {
    seq(SampleFrameCount, i requires 0 <= i < SampleFrameCount =>
      Frame(i + 1, "/api/placeholder/200/150", "14:" + TwoDigits(35 + i) + ":" + TwoDigits(seconds[i])))
  }

  /** `frames.slice(0, 4)`: the frames the grid shows. */
  function ShownFrames(frames: seq<Frame>): (r: seq<Frame>)
    ensures |r| <= ShownFrameCount && |r| <= |frames|
    ensures |frames| >= ShownFrameCount ==> |r| == ShownFrameCount
    ensures |frames| < ShownFrameCount ==> r == frames
    ensures forall i :: 0 <= i < |r| ==> r[i] == frames[i]
  {
    if |frames| <= ShownFrameCount then frames else frames[..ShownFrameCount]
  }

  /** The grid shows the sample frames with ids 1 to 4. */
  lemma ShownSampleFrames(seconds: seq<nat>)
    requires |seconds| == SampleFrameCount
    requires forall i :: 0 <= i < |seconds| ==> seconds[i] < 60
    ensures |ShownFrames(SampleFrames(seconds))| == 4
    ensures forall i :: 0 <= i < 4 ==> ShownFrames(SampleFrames(seconds))[i].id == i + 1
  {
  }

  /** The component's state. */
  class EmergencyDashboard {
    var selectedServices: Services
    var leftWidth: real
    var rightWidth: real
    var isDragging: bool

    /** The two panels share the width and the divider stays within its bounds. */
    ghost predicate Valid()
      reads this
    {
      MinLeftWidth <= leftWidth <= MaxLeftWidth && leftWidth + rightWidth == 100.0
    }

    constructor ()
      ensures Valid()
      ensures selectedServices == InitialServices
      ensures leftWidth == InitialLeftWidth && rightWidth == InitialRightWidth
      ensures !isDragging
    {
      selectedServices := InitialServices;
      leftWidth := InitialLeftWidth;
      rightWidth := InitialRightWidth;
      isDragging := false;
    }

    /** A service button: flips that service only. */
    method PressService(svc: Service)
      requires Valid()
      modifies this
      ensures Valid()
      ensures selectedServices == Toggle(old(selectedServices), svc)
      ensures leftWidth == old(leftWidth) && rightWidth == old(rightWidth) && isDragging == old(isDragging)
    {
      selectedServices := Toggle(selectedServices, svc);
    }

    /** handleMouseDown: dragging starts. */
    method MouseDown()
      requires Valid()
      modifies this
      ensures Valid()
      ensures isDragging
      ensures selectedServices == old(selectedServices)
      ensures leftWidth == old(leftWidth) && rightWidth == old(rightWidth)
    {
      isDragging := true;
    }

    /**
     * handleMouseMove: while dragging, the left panel takes the clamped
     * position and the right one the rest; otherwise nothing changes.
     */
    method MouseMove(position: real)
      requires Valid()
      modifies this
      ensures Valid()
      ensures old(isDragging) ==> leftWidth == ClampLeftWidth(position) && rightWidth == 100.0 - leftWidth
      ensures !old(isDragging) ==> leftWidth == old(leftWidth) && rightWidth == old(rightWidth)
      ensures selectedServices == old(selectedServices) && isDragging == old(isDragging)
    {
      if !isDragging {
        return;
      }
      var newLeftWidth := ClampLeftWidth(position);
      var newRightWidth := 100.0 - newLeftWidth;
      leftWidth := newLeftWidth;
      rightWidth := newRightWidth;
    }

    /** handleMouseUp: dragging stops. */
    method MouseUp()
      requires Valid()
      modifies this
      ensures Valid()
      ensures !isDragging
      ensures selectedServices == old(selectedServices)
      ensures leftWidth == old(leftWidth) && rightWidth == old(rightWidth)
    {
      isDragging := false;
    }

    /** The Cancel button only raises an alert. */
    method Cancel() returns (alertMessage: string)
      ensures alertMessage == CancelAlert
    {
      alertMessage := CancelAlert;
    }

    /** The Confirm button only raises an alert. */
    method Confirm() returns (alertMessage: string)
      ensures alertMessage == ConfirmAlert
    {
      alertMessage := ConfirmAlert;
    }
  }

  /** A client: a drag far past the right edge stops at 80/20, and the services are left alone. */
  method DragScenario()
  {
    var d := new EmergencyDashboard();
    d.MouseMove(5.0);
    assert d.leftWidth == 60.0;
    d.MouseDown();
    d.MouseMove(95.0);
    assert d.leftWidth == 80.0 && d.rightWidth == 20.0;
    d.MouseUp();
    d.MouseMove(30.0);
    assert d.leftWidth == 80.0;
    var msg := d.Confirm();
    assert d.selectedServices == InitialServices;
  }
}

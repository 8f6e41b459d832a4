/** The control switches of the device detail page
    (frontend/src/app/device/detail/page.tsx) and the device id it shows. */
module DeviceDetail {
  import opened Ui

  datatype Control = NanoBubble | OzoneGenerator

  datatype Controls = Controls(nanoBubble: bool, ozoneGenerator: bool)
  {
    function Get(c: Control): bool
    {
      match c
      case NanoBubble => nanoBubble
      case OzoneGenerator => ozoneGenerator
    }
  }

  /** The switches when the page opens: nano-bubble on, ozone generator off. */
  const InitialControls: Controls := Controls(true, false)

  /** `handleToggle(control)`: flips the named switch and leaves the other
      one alone. */
  function Toggle(s: Controls, c: Control): (r: Controls)
    ensures r.Get(c) == !s.Get(c)
    ensures forall d :: d != c ==> r.Get(d) == s.Get(d)
  {
    match c
    case NanoBubble => s.(nanoBubble := !s.nanoBubble)
    case OzoneGenerator => s.(ozoneGenerator := !s.ozoneGenerator)
  }

  /** Toggling is an involution, and toggles of the two switches commute. */
  lemma ToggleInvolutionAndCommute(s: Controls, c: Control, d: Control)
    ensures Toggle(Toggle(s, c), c) == s
    ensures Toggle(Toggle(s, c), d) == Toggle(Toggle(s, d), c)
  {
  }

  /** The text inside a switch. */
  function SwitchLabel(on: bool): (r: string)
    ensures r == "ON" <==> on
    ensures r == "OFF" <==> !on
  {
    if on then "ON" else "OFF"
  }

  /** The page opens with the nano-bubble switch showing ON and the ozone
      switch showing OFF. */
  lemma InitialSwitchLabels()
    ensures SwitchLabel(InitialControls.Get(NanoBubble)) == "ON"
    ensures SwitchLabel(InitialControls.Get(OzoneGenerator)) == "OFF"
  {
  }

  /** The state after toggling switch `cs[i]` for each i in turn. */
  function ToggleAll(s: Controls, cs: seq<Control>): Controls
    decreases |cs|
  {
    if |cs| == 0 then s else ToggleAll(Toggle(s, cs[0]), cs[1..])
  }

  function CountOf(cs: seq<Control>, c: Control): nat
  {
    if |cs| == 0 then 0 else (if cs[0] == c then 1 else 0) + CountOf(cs[1..], c)
  }

  /** After any sequence of clicks a switch is on exactly when it started
      on and was clicked an even number of times, or started off and was
      clicked an odd number of times. */
  lemma {:induction false} ToggleAllParity(s: Controls, cs: seq<Control>, c: Control)
    ensures ToggleAll(s, cs).Get(c) <==> (s.Get(c) <==> CountOf(cs, c) % 2 == 0)
    decreases |cs|
  {
    if |cs| > 0 {
      ToggleAllParity(Toggle(s, cs[0]), cs[1..], c);
    }
  }

  /** `searchParams.get("id") || "NB-001"`: a missing or empty parameter
      falls back to the first device. */
  function DeviceIdFromParam(id: Option<string>): (r: string)
    ensures r != ""
    ensures id.Some? && id.value != "" ==> r == id.value
    ensures id.None? || id.value == "" ==> r == "NB-001"
  {
    if id.Some? && id.value != "" then id.value else "NB-001"
  }
}

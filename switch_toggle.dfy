/**
  The display power switch (Assets/Scripts/ToggleOnOff.cs, class `SwitchToggle`).
  Each press flips the switch and pushes the new state to the animator.
*/
module Switch {

  class SwitchToggle {
    /** Whether the display is powered. */
    var isOn: bool
    /** The last value given to the animator's "IsOn" parameter. */
    var animatorIsOn: bool

    /** A new switch is off. */
    constructor()
      ensures !isOn && !animatorIsOn
    {
      isOn := false;
      animatorIsOn := false;
    }

    /** The `IsOn` property: the switch's current state. */
    function IsOn(): (on: bool)
      reads this
      ensures on <==> isOn
    {
      isOn
    }

    /** A press flips the switch and shows the new state on the animator. */
    method OnTogglePressed()
      modifies this
      ensures isOn == !old(isOn)
      ensures animatorIsOn == isOn
    {
      isOn := !isOn;
      animatorIsOn := isOn;
    }
  }

  /** Two presses leave the switch as it was. */
  method PressTwice(s: SwitchToggle)
    modifies s
    ensures s.isOn == old(s.isOn) && s.animatorIsOn == s.isOn
  {
    s.OnTogglePressed();
    s.OnTogglePressed();
  }
}

/**
  The gas tank toggle (Assets/Scripts/GasTankToggle.cs). The gas flag is a static
  field of the script, shared by every object that reads it; here it is the one
  `GasSupply` object that the tank toggles and the welding gun reads.
*/
module GasTank {
  import opened Options

  /** The process-wide gas flag. */
  class GasSupply {
    var isGasOn: bool

    /** Gas starts off. */
    constructor()
      ensures !isGasOn
    {
      isGasOn := false;
    }
  }

  /** The two outline materials of the tank. */
  datatype TankMaterial = OnMaterial | OffMaterial

  /** The outline material that shows the gas state. */
  function MaterialFor(gasOn: bool): (m: TankMaterial)
    ensures m == OnMaterial <==> gasOn
    ensures m == OffMaterial <==> !gasOn
  {
    if gasOn then OnMaterial else OffMaterial
  }

  class GasTankToggle {
    const supply: GasSupply
    /** An outline renderer is assigned. */
    const hasRenderer: bool
    /** A gas-off warning object is assigned. */
    const hasWarningUI: bool
    /** The renderer's material; `None` while no material was ever set on it. */
    var outlineMaterial: Option<TankMaterial>
    /** Whether the warning object is active; `None` while it was never set. */
    var warningActive: Option<bool>

    /**
      The visuals agree with the gas flag: an assigned renderer shows the material of
      the current state and an assigned warning is active exactly while gas is off.
    */
    predicate Valid()
      reads this, supply
    {
      (hasRenderer ==> outlineMaterial == Some(MaterialFor(supply.isGasOn)))
      && (hasWarningUI ==> warningActive == Some(!supply.isGasOn))
    }

    /** `Awake`: the visuals and the warning are brought in line with the gas flag. */
    constructor(supply: GasSupply, hasRenderer: bool, hasWarningUI: bool)
      ensures this.supply == supply && this.hasRenderer == hasRenderer && this.hasWarningUI == hasWarningUI
      ensures outlineMaterial == (if hasRenderer then Some(MaterialFor(supply.isGasOn)) else None)
      ensures warningActive == (if hasWarningUI then Some(!supply.isGasOn) else None)
      ensures Valid()
    {
      this.supply := supply;
      this.hasRenderer := hasRenderer;
      this.hasWarningUI := hasWarningUI;
      outlineMaterial := if hasRenderer then Some(MaterialFor(supply.isGasOn)) else None;
      warningActive := if hasWarningUI then Some(!supply.isGasOn) else None;
    }

    /** A press flips the gas flag and refreshes the material and the warning. */
    method OnTogglePressed()
      modifies this, supply
      ensures supply.isGasOn == !old(supply.isGasOn)
      ensures outlineMaterial == (if hasRenderer then Some(MaterialFor(supply.isGasOn)) else old(outlineMaterial))
      ensures warningActive == (if hasWarningUI then Some(!supply.isGasOn) else old(warningActive))
      ensures Valid()
    {
      supply.isGasOn := !supply.isGasOn;
      UpdateVisual();
      if hasWarningUI {
        warningActive := Some(!supply.isGasOn);
      }
    }

    /** The renderer, when assigned, shows the material of the current gas state. */
    method UpdateVisual()
      modifies this
      ensures outlineMaterial == (if hasRenderer then Some(MaterialFor(supply.isGasOn)) else old(outlineMaterial))
      ensures warningActive == old(warningActive)
    {
      if hasRenderer {
        outlineMaterial := Some(MaterialFor(supply.isGasOn));
      }
    }
  }

  /** Two presses leave the gas flag as it was, and the visuals still agree with it. */
  method PressTwice(t: GasTankToggle)
    modifies t, t.supply
    ensures t.supply.isGasOn == old(t.supply.isGasOn)
    ensures t.Valid()
  {
    t.OnTogglePressed();
    t.OnTogglePressed();
  }
}

/** The light/dark colour mode the whole application shares. */
module ThemeProvider {

  const Light := "light"
  const Dark := "dark"

  predicate IsMode(mode: string) {
    mode == Light || mode == Dark
  }

  /** The updater `toggleColorMode` passes to `setMode`. */
  function Toggled(mode: string): (next: string)
    ensures next == Dark <==> mode == Light
    ensures next == Light <==> mode != Light
    ensures IsMode(next)
  {
    if mode == Light then Dark else Light
  }

  /** From either mode, toggling twice comes back to it. */
  lemma ToggleTwice(mode: string)
    requires IsMode(mode)
    ensures Toggled(Toggled(mode)) == mode
  {
  }

  /** The context value: the toggle and the current mode. */
  datatype ColorModeValue = ColorModeValue(mode: string)

  class ColorModeProvider {
    var mode: string

    predicate Valid()
      reads this
    {
      IsMode(mode)
    }

    /** The value consumers read through the context. */
    function ColorMode(): (value: ColorModeValue)
      reads this
      ensures value.mode == mode
    {
      ColorModeValue(mode)
    }

    constructor ()
      ensures Valid() && mode == Light
    {
      mode := Light;
    }

    method ToggleColorMode()
      requires Valid()
      modifies this
      ensures Valid()
      ensures mode == Toggled(old(mode))
      ensures ColorMode().mode == mode
    {
      mode := if mode == Light then Dark else Light;
    }
  }
}

/**
 * The composed organisation setup (the `organization` directory): a component
 * holding only the mode and rendering the mode selector or one of the two
 * form components.
 */
module OrganizationSetup {
  import opened SetupMode

  /** The selector's `onSelectMode` argument: only 'create' or 'join'. */
  function SelectorEvent(m: Mode): (e: Event)
    requires m != Choose
    ensures Offered(Choose, e) && Next(Choose, e) == m
  {
    if m == Create then SelectCreate else SelectJoin
  }

  class OrganizationSetup {
    var mode: Mode

    constructor ()
      ensures mode == Choose
    {
      mode := Choose;
    }

    /** `onSelectMode` from the selector, shown on the choice screen. */
    method SelectMode(m: Mode)
      requires mode == Choose && m != Choose
      modifies this
      ensures mode == m && mode == Next(old(mode), SelectorEvent(m))
    {
      mode := m;
    }

    /** `onBack` from either form. */
    method Back()
      requires mode != Choose
      modifies this
      ensures mode == Choose && mode == Next(old(mode), Event.Back)
    {
      mode := Choose;
    }

    /** `onCreateInstead` from the join form. */
    method CreateInstead()
      requires mode == Join
      modifies this
      ensures mode == Create && mode == Next(old(mode), Event.CreateInstead)
    {
      mode := Create;
    }
  }
}

/**
 * The organisation-setup screen's mode machine, shared by both setup
 * components: a choice screen, the create form and the join form.
 */
module SetupMode {
  /** `'choose' | 'create' | 'join'`. */
  datatype Mode = Choose | Create | Join

  /** The buttons that change the mode. */
  datatype Event =
    | SelectCreate   // "Create Organization" on the choice screen
    | SelectJoin     // "Join Organization" on the choice screen
    | Back           // "Back to options" on either form
    | CreateInstead  // "Create your own organization" on the join form

  /** The buttons each mode shows. */
  predicate Offered(m: Mode, e: Event) {
    match m
    case Choose => e == SelectCreate || e == SelectJoin
    case Create => e == Back
    case Join => e == Back || e == CreateInstead
  }

  /** The mode after a button press; a button a mode does not show changes nothing. */
  function Next(m: Mode, e: Event): (r: Mode)
    ensures !Offered(m, e) ==> r == m
    ensures Offered(m, e) ==> r != m
  {
    match (m, e)
    case (Choose, SelectCreate) => Create
    case (Choose, SelectJoin) => Join
    case (Create, Back) => Choose
    case (Join, Back) => Choose
    case (Join, CreateInstead) => Create
    case _ => m
  }

  /** The join form is entered only from the choice screen: there is no create-to-join step. */
  lemma EnterJoin(m: Mode, e: Event)
    ensures m != Join && Next(m, e) == Join <==> m == Choose && e == SelectJoin
  {
  }

  /** The create form is entered from the choice screen or from the join form. */
  lemma EnterCreate(m: Mode, e: Event)
    ensures m != Create && Next(m, e) == Create <==>
      (m == Choose && e == SelectCreate) || (m == Join && e == CreateInstead)
  {
  }

  /** Back always returns to the choice screen, and nothing else does. */
  lemma EnterChoose(m: Mode, e: Event)
    ensures m != Choose && Next(m, e) == Choose <==> m != Choose && e == Back
  {
  }

  /** The mode after a sequence of button presses. */
  function Run(m: Mode, events: seq<Event>): Mode
    decreases |events|
  {
    if events == [] then m else Run(Next(m, events[0]), events[1..])
  }

  lemma {:induction false} RunAppend(m: Mode, events: seq<Event>, e: Event)
    ensures Run(m, events + [e]) == Next(Run(m, events), e)
    decreases |events|
  {
    if events != [] {
      assert (events + [e])[1..] == events[1..] + [e];
      RunAppend(Next(m, events[0]), events[1..], e);
    }
  }

  /** Every way from the create form to the join form passes through the choice screen. */
  lemma {:induction false} CreateToJoinViaChoose(events: seq<Event>)
    requires Run(Create, events) == Join
    ensures exists i :: 0 < i <= |events| && Run(Create, events[..i]) == Choose
    decreases |events|
  {
    if Next(Create, events[0]) == Choose {
      assert events[..1] == [events[0]];
      assert Run(Create, events[..1]) == Next(Run(Create, []), events[0]) by {
        RunAppend(Create, [], events[0]);
      }
    } else {
      var rest := events[1..];
      CreateToJoinViaChoose(rest);
      var i :| 0 < i <= |rest| && Run(Create, rest[..i]) == Choose;
      assert events[..i + 1] == [events[0]] + rest[..i];
      assert Run(Create, events[..i + 1]) == Run(Create, rest[..i]);
    }
  }
}

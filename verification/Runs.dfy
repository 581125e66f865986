/** The supervisor's bookkeeping, run on the objects themselves. */
module SupervisorRuns {
  import opened Bookkeeping
  import opened ExecTree

  method Handle(forest: ProcessForest, e: Event)
    requires forest.Valid() && Shaped(forest.World()) && Allowed(forest.World(), e)
    modifies forest
    ensures forest.Valid() && forest.World() == Step(old(forest.World()), e)
  {
    match e
    case Create(up, fifo) => var p := forest.Create(up, fifo);
    case Disable(p, stop) => forest.DisableShortcuttingBubbleUpToExcl(p, stop);
    case AskAncestor(p) => var r := forest.ClosestShortcutPoint(p);
    case Registers(p, name, u) => var ok := forest.RegisterFileUsageUpdate(p, name, u, false);
    case Open(name, p) => forest.OpenForWriting(name, p);
    case Close(name) => forest.CloseForWriting(name);
  }

  lemma AfterOneMore(events: seq<Event>, i: int)
    requires ValidEvents(events) && 0 <= i < |events|
    ensures
      var before := After(events[..i]);
      After(events[..i + 1]) == if Allowed(before, events[i]) then Step(before, events[i]) else before
  {
    assert events[..i + 1][..i] == events[..i];
  }

  /** After every run the objects hold exactly the world that the events lead to. */
  method Run(events: seq<Event>) returns (forest: ProcessForest)
    requires ValidEvents(events)
    ensures fresh(forest) && forest.Valid() && forest.World() == After(events)
  {
    forest := new ProcessForest();
    for i := 0 to |events|
      invariant fresh(forest) && forest.Valid() && forest.World() == After(events[..i])
    {
      AfterOneMore(events, i);
      if AllowedIn(forest.parent, forest.writeOfdsDb, events[i]) {
        Handle(forest, events[i]);
      }
    }
    assert events[..|events|] == events;
  }
}

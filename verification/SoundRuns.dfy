/** How sound runs are put together. */
module SoundRuns {
  import opened Protocol
  import opened OrphanAlerts

  lemma {:induction false} Concat(c: Settings, s: State, first: seq<Event>, second: seq<Event>)
    requires SoundRun(c, s, first) && IsRun(c, s, first) && SoundRun(c, After(c, s, first), second)
    requires IsRun(c, After(c, s, first), second)
    ensures SoundRun(c, s, first + second) && IsRun(c, s, first + second)
    ensures After(c, s, first + second) == After(c, After(c, s, first), second)
    decreases |first|
  {
    if first == [] {
      assert first + second == second;
    } else {
      var all := first + second;
      var next := Apply(c, s, first[0]);
      assert all[0] == first[0] && all[1..] == first[1..] + second;
      Concat(c, next, first[1..], second);
      assert SoundRun(c, next, all[1..]) && IsRun(c, next, all[1..]);
    }
  }

  /** A run of one event. */
  lemma Single(c: Settings, s: State, e: Event, s': State)
    requires Allowed(c, s, e) && Apply(c, s, e) == s'
    ensures IsRun(c, s, [e]) && After(c, s, [e]) == s'
  {
    assert [e][1..] == [];
  }

  /** The same for runs that need not be sound. */
  lemma {:induction false} Follows(c: Settings, s: State, first: seq<Event>, second: seq<Event>)
    requires IsRun(c, s, first) && IsRun(c, After(c, s, first), second)
    ensures IsRun(c, s, first + second) && After(c, s, first + second) == After(c, After(c, s, first), second)
    decreases |first|
  {
    if first == [] {
      assert first + second == second;
    } else {
      var all := first + second;
      assert all[0] == first[0] && all[1..] == first[1..] + second;
      Follows(c, Apply(c, s, first[0]), first[1..], second);
      assert IsRun(c, Apply(c, s, first[0]), all[1..]);
    }
  }

  lemma One(c: Settings, s: State, e: Event, s': State)
    requires Allowed(c, s, e) && Sound(s, e) && Apply(c, s, e) == s'
    ensures SoundRun(c, s, [e]) && IsRun(c, s, [e]) && After(c, s, [e]) == s'
  {
    assert [e][1..] == [];
  }

  lemma Reaches(c: Settings, s: State, events: seq<Event>, middle: State, e: Event, s': State)
    requires SoundRun(c, s, events) && IsRun(c, s, events) && After(c, s, events) == middle
    requires Allowed(c, middle, e) && Sound(middle, e) && Apply(c, middle, e) == s'
    ensures SoundRun(c, s, events + [e]) && IsRun(c, s, events + [e]) && After(c, s, events + [e]) == s'
  {
    One(c, middle, e, s');
    Concat(c, s, events, [e]);
  }
}

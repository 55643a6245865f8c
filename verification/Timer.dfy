/** Seconds/nanoseconds time values (timer.c). */
module Timer {

  const NSEC_PER_SEC: int := 1_000_000_000

  datatype Timespec = Timespec(sec: int, nsec: int)

  const ZERO := Timespec(0, 0)

  predicate Normalised(t: Timespec) {
    0 <= t.nsec < NSEC_PER_SEC
  }

  /** The instant a time value denotes. */
  function Nanos(t: Timespec): int {
    t.sec * NSEC_PER_SEC + t.nsec
  }

  /** qgis_timer_add: component-wise addition, carrying only when nsec reaches one second. */
  function Add(t: Timespec, d: Timespec): Timespec {
    var sec, nsec := t.sec + d.sec, t.nsec + d.nsec;
    if NSEC_PER_SEC <= nsec then
      Timespec(sec + nsec / NSEC_PER_SEC, nsec % NSEC_PER_SEC)
    else
      Timespec(sec, nsec)
  }

  /** qgis_timer_isgreaterthan */
  predicate IsGreater(a: Timespec, b: Timespec) {
    a.sec > b.sec || (a.sec == b.sec && a.nsec > b.nsec)
  }

  /** qgis_timer_is_empty */
  predicate IsEmpty(t: Timespec) {
    t.sec == 0 && t.nsec == 0
  }

  /** Addition is addition of instants, and keeps values normalised. */
  lemma AddIsNanosAddition(t: Timespec, d: Timespec)
    ensures Nanos(Add(t, d)) == Nanos(t) + Nanos(d)
    ensures Normalised(t) && Normalised(d) ==> Normalised(Add(t, d))
  {
  }

  /** The carry is at a thousand million nanoseconds. */
  lemma OneSecond(t: Timespec)
    requires t.nsec == 999_999_999
    ensures Add(t, Timespec(0, 1)) == Timespec(t.sec + 1, 0)
  {
    assert t.nsec + 1 == NSEC_PER_SEC;
  }

  /** On normalised values the field-wise comparison is the order of instants;
      off them it need not be. */
  lemma GreaterIffLater(a: Timespec, b: Timespec)
    requires Normalised(a) && Normalised(b)
    ensures IsGreater(a, b) <==> Nanos(a) > Nanos(b)
    ensures IsEmpty(a) <==> Nanos(a) == 0
    ensures a == b <==> Nanos(a) == Nanos(b)
  {
  }

  /** A struct timespec updated in place. */
  class Clock {
    var sec: int
    var nsec: int

    ghost function Value(): Timespec
      reads this
    {
      Timespec(sec, nsec)
    }

    constructor (t: Timespec)
      ensures Value() == t
    {
      sec, nsec := t.sec, t.nsec;
    }

    method AddTo(d: Timespec)
      modifies this
      ensures Nanos(Value()) == old(Nanos(Value())) + Nanos(d)
      ensures Value() == Add(old(Value()), d)
    {
      sec := sec + d.sec;
      nsec := nsec + d.nsec;
      if NSEC_PER_SEC <= nsec {
        sec := sec + nsec / NSEC_PER_SEC;
        nsec := nsec % NSEC_PER_SEC;
      }
    }
  }
}

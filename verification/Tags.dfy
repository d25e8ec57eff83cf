/** Superdense tags and the saturating time arithmetic of core/tag.c. */
module Tags {
  const NEVER: int := -0x8000_0000_0000_0000
  const FOREVER: int := 0x7FFF_FFFF_FFFF_FFFF
  const FOREVER_MICROSTEP: nat := 0xFFFF_FFFF

  datatype Tag = Tag(time: int, microstep: nat)

  const NEVER_TAG := Tag(NEVER, 0)
  const FOREVER_TAG := Tag(FOREVER, FOREVER_MICROSTEP)

  /** lf_tag_compare: the three-way comparison. */
  function Compare(a: Tag, b: Tag): (c: int)
  {
    if a.time < b.time then -1
    else if a.time > b.time then 1
    else if a.microstep < b.microstep then -1
    else if a.microstep > b.microstep then 1
    else 0
  }

  predicate Before(a: Tag, b: Tag) { Compare(a, b) < 0 }

  predicate AtMost(a: Tag, b: Tag) { Compare(a, b) <= 0 }

  function MinTag(a: Tag, b: Tag): (m: Tag)
    ensures AtMost(m, a) && AtMost(m, b) && (m == a || m == b)
  {
    if Compare(a, b) < 0 then a else b
  }

  function NextMicrostep(t: Tag): (r: Tag)
    ensures Before(t, r) && forall u :: Before(t, u) <==> AtMost(r, u)
  {
    Tag(t.time, t.microstep + 1)
  }

  /** The machine integer range of an instant or an interval. */
  predicate IsTime(t: int) { NEVER <= t <= FOREVER }

  /** lf_time_add, with the overflow tests read as tests on the exact sum. */
  function TimeAdd(a: int, b: int): (r: int)
    requires IsTime(a) && IsTime(b)
    ensures IsTime(r)
    ensures a != NEVER && b != NEVER && a != FOREVER && b != FOREVER && IsTime(a + b) ==> r == a + b
  {
    if a == NEVER || b == NEVER then NEVER
    else if a == FOREVER || b == FOREVER then FOREVER
    else if a + b > FOREVER then FOREVER
    else if a + b < NEVER then NEVER
    else a + b
  }

  /** lf_delay_tag: a zero delay is one microstep, a positive one resets the microstep. */
  function DelayTag(t: Tag, interval: int): (r: Tag)
    ensures interval >= 0 && t.time != NEVER && Before(t, FOREVER_TAG) ==> Before(t, r)
    ensures interval > 0 && t.time != NEVER && t.time + interval < FOREVER ==> r.time - interval == t.time && r.microstep == 0
  {
    if t.time == NEVER || interval < 0 then t
    else if t.time >= FOREVER - interval then FOREVER_TAG
    else if interval == 0 then NextMicrostep(t)
    else Tag(t.time + interval, 0)
  }

  /** Comparison is a total order: the facts every queue and every horizon below relies on. */
  lemma CompareIsTotalOrder(a: Tag, b: Tag, c: Tag)
    ensures Compare(a, b) == -Compare(b, a)
    ensures Compare(a, b) == 0 <==> a == b
    ensures AtMost(a, b) && AtMost(b, c) ==> AtMost(a, c)
    ensures Before(a, b) && AtMost(b, c) ==> Before(a, c)
    ensures AtMost(a, b) && Before(b, c) ==> Before(a, c)
  {
  }
}

/** Choosing which day is viewed. */
module Navigation {
  import opened Roles

  /** `std::clamp(x, lo, hi)`, which demands `lo <= hi`. */
  function Clamp(x: int, lo: int, hi: int): (r: int)
    requires lo <= hi
    ensures lo <= r <= hi
    ensures lo <= x <= hi ==> r == x
    ensures x < lo ==> r == lo
    ensures hi < x ==> r == hi
  {
    if x < lo then lo else if hi < x then hi else x
  }

  /** The four day-navigation buttons: "|<", "<", ">" and ">|". */
  datatype NavButton = First | Prev | Next | Last

  /** The day a click on `button` switches to while day `active` of `count`
      days is viewed; `None` when the button is disabled (the backward ones on
      day 0, the forward ones on the last day). */
  function NavTarget(button: NavButton, active: int, count: int): (t: Option<int>)
    requires 0 <= active < count
    ensures t.Some? ==> 0 <= t.value < count && t.value != active
    ensures t.None? <==> (if button in {First, Prev} then active == 0 else active == count - 1)
    ensures t.Some? && button in {First, Prev} ==> t.value < active
    ensures t.Some? && button in {Next, Last} ==> active < t.value
    ensures t.Some? && button == First ==> t.value == 0
    ensures t.Some? && button == Last ==> t.value == count - 1
    ensures t.Some? && button in {Prev, Next} ==> t.value - active in {-1, 1}
  {
    match button
    case First => if active == 0 then None else Some(0)
    case Prev => if active == 0 then None else Some(active - 1)
    case Next => if active + 1 == count then None else Some(active + 1)
    case Last => if active + 1 == count then None else Some(count - 1)
  }
}

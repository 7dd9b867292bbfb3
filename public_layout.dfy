/** The public page shell (src/layouts/PublicLayout.jsx): the hidden
    admin-entry gesture on the logo and the timetable link in the header.
    `Date.now()` is the `currentTime` parameter of the click handler. */
module PublicLayout {
  import opened Remote
  import opened Content
  import Text

  /** Clicks further apart than this many milliseconds start a new count. */
  const ResetWindowMs := 1000
  /** The click that completes the gesture. */
  const SecretClickCount := 7
  const AdminLoginPath := "/admin/login"

  /** The handler's two state variables. */
  datatype Gesture = Gesture(clickCount: int, lastClickTime: int)

  /** Both start at 0. */
  const Initial := Gesture(0, 0)

  datatype ClickResult = ClickResult(next: Gesture, navigates: bool)

  /** One logo click at time `now`, as the handler decides it. When the
      count is set twice in one click, the later value (0) is the one kept. */
  function Click(g: Gesture, now: int): (r: ClickResult)
    ensures r.next.lastClickTime == now
    // a late click restarts the count at 1 and never navigates
    ensures now - g.lastClickTime > ResetWindowMs ==> r.next.clickCount == 1 && !r.navigates
    // a timely click (a gap of exactly 1000 ms included) navigates exactly on the 7th
    ensures now - g.lastClickTime <= ResetWindowMs ==>
      (r.navigates <==> g.clickCount + 1 == SecretClickCount)
    ensures now - g.lastClickTime <= ResetWindowMs && !r.navigates ==>
      r.next.clickCount == g.clickCount + 1
    ensures r.navigates ==> r.next.clickCount == 0
  {
    if now - g.lastClickTime > ResetWindowMs then ClickResult(Gesture(1, now), false)
    else
      var newCount := g.clickCount + 1;
      if newCount == SecretClickCount then ClickResult(Gesture(0, now), true)
      else ClickResult(Gesture(newCount, now), false)
  }

  /** The state after clicking at each of `times` in turn. */
  function Run(g: Gesture, times: seq<int>): Gesture
    decreases |times|
  {
    if times == [] then g else Run(Click(g, times[0]).next, times[1..])
  }

  /** For each click of `times`, whether it navigated. */
  function Navigations(g: Gesture, times: seq<int>): (nav: seq<bool>)
    ensures |nav| == |times|
    decreases |times|
  {
    if times == [] then [] else [Click(g, times[0]).navigates] + Navigations(Click(g, times[0]).next, times[1..])
  }

  /** Every click after the first is at most 1000 ms after its predecessor. */
  predicate Quick(times: seq<int>) {
    forall k :: 1 <= k < |times| ==> times[k] - times[k - 1] <= ResetWindowMs
  }

  /** Whatever the clicks, a count in 0..6 stays in 0..6. */
  lemma {:induction false} CountStaysBelowSeven(g: Gesture, times: seq<int>)
    requires 0 <= g.clickCount < SecretClickCount
    ensures 0 <= Run(g, times).clickCount < SecretClickCount
    decreases |times|
  {
    if times != [] {
      CountStaysBelowSeven(Click(g, times[0]).next, times[1..]);
    }
  }

  /** From the initial state the count is always one of 0..6. */
  lemma ReachableCount(times: seq<int>)
    ensures 0 <= Run(Initial, times).clickCount <= 6
  {
    CountStaysBelowSeven(Initial, times);
  }

  /** The last click's time is what is remembered. */
  lemma {:induction false} RunRemembersLastClick(g: Gesture, times: seq<int>)
    requires times != []
    ensures Run(g, times).lastClickTime == Text.Last(times)
    decreases |times|
  {
    if |times| > 1 {
      RunRemembersLastClick(Click(g, times[0]).next, times[1..]);
    }
  }

  /** Timely clicks add one each, and the one that reaches 7 navigates and
      resets the count to 0. */
  lemma {:induction false} QuickClicks(g: Gesture, times: seq<int>)
    requires 0 <= g.clickCount < SecretClickCount && g.clickCount + |times| <= SecretClickCount
    requires times != [] ==> times[0] - g.lastClickTime <= ResetWindowMs
    requires Quick(times)
    ensures forall k :: 0 <= k < |times| ==>
      Navigations(g, times)[k] == (g.clickCount + k + 1 == SecretClickCount)
    ensures Run(g, times).clickCount ==
      if g.clickCount + |times| == SecretClickCount then 0 else g.clickCount + |times|
    decreases |times|
  {
    if times != [] {
      var g1 := Click(g, times[0]).next;
      if g.clickCount + 1 < SecretClickCount {
        QuickClicks(g1, times[1..]);
        assert Navigations(g, times) == [false] + Navigations(g1, times[1..]);
      } else {
        assert times[1..] == [];
      }
    }
  }

  /** A late click followed by six timely ones navigates on the last of them. */
  lemma SevenClicksNavigate(g: Gesture, times: seq<int>)
    requires |times| == 7 && times[0] - g.lastClickTime > ResetWindowMs && Quick(times)
    ensures Navigations(g, times) == [false, false, false, false, false, false, true]
    ensures Run(g, times).clickCount == 0
  {
    var g1 := Click(g, times[0]).next;
    QuickClicks(g1, times[1..]);
    assert Navigations(g, times) == [false] + Navigations(g1, times[1..]);
  }

  /** `Run` and `Navigations` over two batches of clicks. */
  lemma {:induction false} RunAppend(g: Gesture, a: seq<int>, b: seq<int>)
    ensures Run(g, a + b) == Run(Run(g, a), b)
    ensures Navigations(g, a + b) == Navigations(g, a) + Navigations(Run(g, a), b)
    decreases |a|
  {
    if a != [] {
      RunAppend(Click(g, a[0]).next, a[1..], b);
      assert (a + b)[1..] == a[1..] + b;
    } else {
      assert a + b == b;
    }
  }

  /** Six clicks (a late one and five timely ones) followed by a late click
      never navigate, and leave the count at 1. */
  lemma LateSeventhClick(g: Gesture, times: seq<int>)
    requires |times| == 7 && times[0] - g.lastClickTime > ResetWindowMs
    requires Quick(times[..6]) && times[6] - times[5] > ResetWindowMs
    ensures forall k :: 0 <= k < 7 ==> !Navigations(g, times)[k]
    ensures Run(g, times).clickCount == 1
  {
    var g1 := Click(g, times[0]).next;
    var mid := times[1..6];
    QuickClicks(g1, mid);
    RunRemembersLastClick(g1, mid);
    RunAppend(g1, mid, [times[6]]);
    assert times[1..] == mid + [times[6]];
    assert Navigations(g, times) == [false] + Navigations(g1, times[1..]);
  }

  /** The header: its settings row and the gesture's state. */
  class Header {
    var settings: Option<SiteSettings>
    var clickCount: int
    var lastClickTime: int

    ghost predicate Valid()
      reads this
    {
      0 <= clickCount < SecretClickCount
    }

    ghost function State(): Gesture
      reads this
    {
      Gesture(clickCount, lastClickTime)
    }

    constructor ()
      ensures Valid() && State() == Initial && settings == None
    {
      settings := None;
      clickCount := 0;
      lastClickTime := 0;
    }

    /** `handleLogoClick`: returns the route navigated to, if any. */
    method HandleLogoClick(currentTime: int) returns (navigateTo: Option<string>)
      requires Valid()
      modifies this
      ensures Valid()
      ensures State() == Click(old(State()), currentTime).next
      ensures navigateTo == if Click(old(State()), currentTime).navigates then Some(AdminLoginPath) else None
      ensures settings == old(settings)
    {
      navigateTo := None;
      if currentTime - lastClickTime > ResetWindowMs {
        clickCount := 1;
      } else {
        var newCount := clickCount + 1;
        clickCount := newCount;
        if newCount == SecretClickCount {
          navigateTo := Some(AdminLoginPath);
          clickCount := 0;
        }
      }
      lastClickTime := currentTime;
    }

    /** The settings fetch on mount: a returned row replaces the settings,
        no row (or an error) leaves them as they were. */
    method OnSettingsFetched(data: Option<SiteSettings>)
      modifies this
      ensures settings == if data.Some? then data else old(settings)
      ensures State() == old(State())
    {
      if data.Some? {
        settings := data;
      }
    }

    /** The timetable link's target, when the link is shown. */
    function TimetableLink(): (link: Option<string>)
      reads this
      ensures link.Some? <==> settings.Some? && settings.value.timetableUrl != ""
      ensures link.Some? ==> link.value == settings.value.timetableUrl
    {
      match settings
      case Some(s) => if s.timetableUrl != "" then Some(s.timetableUrl) else None
      case None => None
    }
  }

  /** A client of the class: from a fresh header, a first click (which is
      late, since the remembered time is 0) and six timely clicks take the
      visitor to the login page on the seventh. */
  method SecretEntry(t: int) returns (navigateTo: Option<string>)
    requires t > ResetWindowMs
    ensures navigateTo == Some(AdminLoginPath)
  {
    var h := new Header();
    var k := 0;
    while k < 6
      invariant 0 <= k <= 6 && h.Valid()
      invariant h.clickCount == k && (k > 0 ==> h.lastClickTime == t + k - 1)
      invariant k == 0 ==> h.State() == Initial
    {
      navigateTo := h.HandleLogoClick(t + k);
      k := k + 1;
    }
    navigateTo := h.HandleLogoClick(t + 6);
  }
}

/** The public level page's announcement panel
    (src/pages/public/LevelGroups.jsx): the newest announcement shown on
    top, the older ones behind an expand button, and the small voice-note
    player. Announcements arrive newest first; that order is the query's. */
module LevelGroups {
  import opened Remote
  import opened Content

  /** `announcements[0]` and `announcements.slice(1)`, for a non-empty list. */
  datatype Feed = NoAnnouncements | Feed(main: AnnouncementRow, others: seq<AnnouncementRow>)

  function FeedOf(list: seq<AnnouncementRow>): (f: Feed)
    ensures f.NoAnnouncements? <==> list == []
    ensures f.Feed? ==> [f.main] + f.others == list
    ensures f.Feed? && |list| <= 1 ==> f.others == []
  {
    if list == [] then NoAnnouncements
    else
      assert [list[0]] + list[1..] == list;
      Feed(list[0], list[1..])
  }

  /** What the panel shows. */
  datatype Panel =
    | Hidden
    | Shown(main: AnnouncementRow, mainImage: Option<string>, mainAudio: Option<string>,
            older: seq<AnnouncementRow>, expandButton: bool)

  /** The panel for a list and the expanded flag: hidden for an empty list;
      otherwise the newest item on top, its image and voice note only when
      expanded, the older items only when expanded and there are some, and
      the expand button whenever expanding would reveal something. */
  function PanelOf(list: seq<AnnouncementRow>, isExpanded: bool): (p: Panel)
    ensures p.Hidden? <==> list == []
    ensures p.Shown? ==> p.main == list[0]
    ensures p.Shown? ==> (p.mainImage.Some? <==> isExpanded && Truthy(list[0].imageUrl))
    ensures p.Shown? ==> (p.mainAudio.Some? <==> isExpanded && Truthy(list[0].audioUrl))
    ensures p.Shown? ==> p.older == if isExpanded then list[1..] else []
    ensures p.Shown? ==> (p.expandButton <==> |list| > 1 || Truthy(list[0].imageUrl) || Truthy(list[0].audioUrl))
    // whatever expanding shows comes with the button that collapses it again
    ensures p.Shown? && (p.older != [] || p.mainImage.Some? || p.mainAudio.Some?) ==> p.expandButton
  {
    match FeedOf(list)
    case NoAnnouncements => Hidden
    case Feed(main, others) =>
      Shown(main,
        if isExpanded && Truthy(main.imageUrl) then main.imageUrl else None,
        if isExpanded && Truthy(main.audioUrl) then main.audioUrl else None,
        if isExpanded && |others| > 0 then others else [],
        |others| > 0 || Truthy(main.imageUrl) || Truthy(main.audioUrl))
  }

  /** A single plain text announcement has nothing to expand. */
  lemma PlainSingleHasNoButton(a: AnnouncementRow, isExpanded: bool)
    requires !Truthy(a.imageUrl) && !Truthy(a.audioUrl)
    ensures PanelOf([a], isExpanded) == Shown(a, None, None, [], false)
  {
  }

  /** The page's announcement state. */
  class FeedView {
    var announcements: seq<AnnouncementRow>
    var loading: bool
    var isExpanded: bool

    constructor ()
      ensures announcements == [] && loading && !isExpanded
    {
      announcements, loading, isExpanded := [], true, false;
    }

    /** The fetch on mount: the list (empty when none came back); the page
        leaves loading either way. */
    method OnFetched(data: Option<seq<AnnouncementRow>>)
      modifies this`announcements, this`loading
      ensures announcements == if data.Some? then data.value else []
      ensures !loading
    {
      announcements := if data.Some? then data.value else [];
      loading := false;
    }

    /** The expand button. */
    method ToggleExpanded()
      modifies this`isExpanded
      ensures isExpanded == !old(isExpanded)
    {
      isExpanded := !isExpanded;
    }

    function View(): (p: Panel)
      reads this
      ensures loading ==> p == Hidden
    {
      if loading then Hidden else PanelOf(announcements, isExpanded)
    }
  }

  /** Two clicks on the expand button restore the panel. */
  method ToggleTwice(v: FeedView)
    modifies v
    ensures v.isExpanded == old(v.isExpanded) && v.announcements == old(v.announcements)
    ensures v.View() == old(v.View())
  {
    v.ToggleExpanded();
    v.ToggleExpanded();
  }

  /** What the player asks of its audio element. */
  datatype ElementCall = Play | Pause

  /** The voice-note player: its `isPlaying` flag and whether its audio
      element is playing. */
  class AudioPlayer {
    var isPlaying: bool
    var elementPlaying: bool

    /** The button shows the element's state. */
    ghost predicate Valid()
      reads this
    {
      isPlaying == elementPlaying
    }

    constructor ()
      ensures Valid() && !isPlaying
    {
      isPlaying, elementPlaying := false, false;
    }

    /** `togglePlay`: pause a playing element, play a paused one, and flip the flag. */
    method TogglePlay() returns (call: ElementCall)
      requires Valid()
      modifies this
      ensures Valid()
      ensures isPlaying == !old(isPlaying)
      ensures call == if old(isPlaying) then Pause else Play
    {
      if isPlaying {
        call := Pause;
        elementPlaying := false;
      } else {
        call := Play;
        elementPlaying := true;
      }
      isPlaying := !isPlaying;
    }

    /** The element's `ended` event: playback stopped by itself. */
    method Ended()
      modifies this
      ensures Valid() && !isPlaying
    {
      elementPlaying := false;
      isPlaying := false;
    }
  }

  /** A client of the player: play, let the note run out, and the next
      click plays it again. */
  method ListenTwice() returns (calls: seq<ElementCall>)
    ensures calls == [Play, Play]
  {
    var p := new AudioPlayer();
    var c1 := p.TogglePlay();
    p.Ended();
    var c2 := p.TogglePlay();
    calls := [c1, c2];
  }
}

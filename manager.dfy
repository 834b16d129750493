/** The scene store: the ordered array of match objects and the operations
    that query and change it. Each operation the page calls is specified by
    its pure counterpart in SceneSpec applied to the scene it found; the
    helpers below them state their effect entry by entry. */
module SceneStore {
  import opened MatchModel
  import opened SceneSpec

  class MatchesManager {
    var matches: seq<Match>

    /** No match object appears twice, so changing one changes one entry. */
    ghost predicate Valid()
      reads this
    {
      forall i, j :: 0 <= i < j < |matches| ==> matches[i] != matches[j]
    }

    /** The current state of every match, in z-order. */
    function Scene(): (s: SceneSpec.Scene)
      reads this, matches
      ensures |s| == |matches|
      ensures forall i :: 0 <= i < |matches| ==> s[i] == matches[i].State()
    {
      var ms := matches;
      seq(|ms|, i requires 0 <= i < |ms| reads ms => ms[i].State())
    }

    constructor ()
      ensures Valid() && Scene() == []
    {
      matches := [];
    }

    /** Appends `count || 1` matches, each 5 right and 5 down from the last. */
    method AddMatches(count: int)
      requires Valid()
      modifies this
      ensures Valid()
      ensures Scene() == SceneSpec.AddMatches(old(Scene()), count)
      ensures old(matches) <= matches
    {
      var n := if count == 0 then 1 else count;
      var i := 0;
      while i < n
        invariant Valid()
        invariant 0 <= i <= BatchSize(count)
        invariant Scene() == Appended(old(Scene()), i)
        invariant old(matches) <= matches
      {
        var newMatch := NewMatchAfterLast();
        AddMatch(newMatch);
        i := i + 1;
      }
    }

    /** The body of `addMatches`' loop up to the push: a match at the
        centre, replaced by one offset from the last match if there is one. */
    method NewMatchAfterLast() returns (newMatch: Match)
      ensures fresh(newMatch)
      ensures newMatch.State() == NextMatch(Scene())
    {
      newMatch := new Match(0, 0);
      if |matches| > 0 {
        var lastMatch := matches[|matches| - 1];
        newMatch := new Match(lastMatch.x + Offset, lastMatch.y + Offset);
      }
    }

    method AddMatch(m: Match)
      requires Valid() && m !in matches
      modifies this
      ensures Valid()
      ensures matches == old(matches) + [m]
      ensures Scene() == old(Scene()) + [m.State()]
    {
      matches := matches + [m];
    }

    /** Hit test from the top of the z-order down; changes nothing. */
    method GetMatchContainsPoint(p: Point) returns (m: Match?)
      ensures TopmostHit(Scene(), p).None? ==> m == null
      ensures TopmostHit(Scene(), p).Some? ==> m == matches[TopmostHit(Scene(), p).value]
    {
      m := null;
      var index := |matches| - 1;
      while index >= 0
        invariant -1 <= index < |matches|
        invariant forall j :: index < j < |matches| ==> !matches[j].Contains(p)
      {
        if matches[index].Contains(p) {
          m := matches[index];
          TopmostHitUnique(Scene(), p, index);
          return;
        }
        index := index - 1;
      }
    }

    method SelectMatchAtPoint(p: Point)
      requires Valid()
      modifies matches
      ensures Valid() && matches == old(matches)
      ensures Scene() == SelectAtPoint(old(Scene()), p)
    {
      var m := GetMatchContainsPoint(p);
      SelectMatch(m);
    }

    /** Clears every selected flag, then selects `m`; nothing when `m` is null. */
    method SelectMatch(m: Match?)
      requires Valid()
      modifies matches, m
      ensures Valid() && matches == old(matches)
      ensures m == null ==> Scene() == old(Scene())
      ensures m != null ==> m.State() == old(m.State()).(selected := true)
      ensures m != null ==>
        forall i :: 0 <= i < |matches| ==> Scene()[i] == old(Scene()[i]).(selected := matches[i] == m)
    {
      if m == null {
        return;
      }
      var i := 0;
      while i < |matches|
        invariant 0 <= i <= |matches|
        invariant forall j :: 0 <= j < i ==> matches[j].State() == old(matches[j].State()).(selected := false)
        invariant forall j :: i <= j < |matches| ==> matches[j].State() == old(matches[j].State())
        invariant m !in matches ==> m.State() == old(m.State())
      {
        matches[i].selected := false;
        i := i + 1;
      }
      m.selected := true;
    }

    /** Rotates the first selected match; nothing when none is selected. */
    method RotateSelectedMatch()
      requires Valid()
      modifies matches
      ensures Valid() && matches == old(matches)
      ensures Scene() == RotateSelected(old(Scene()))
    {
      var m := SelectedMatch();
      if m == null {
        return;
      }
      m.Rotate();
    }

    /** On a hit, records the grab offset and marks the match dragged. */
    method DragMatchAtPoint(p: Point)
      requires Valid()
      modifies matches
      ensures Valid() && matches == old(matches)
      ensures Scene() == StartDrag(old(Scene()), p)
    {
      var m := GetMatchContainsPoint(p);
      if m == null {
        return;
      }
      ghost var k := TopmostHit(Scene(), p).value;
      ghost var before := Scene();
      m.dragOffset := Point(p.x - m.x, p.y - m.y);
      DragMatch(m);
      assert forall i :: 0 <= i < |matches| && i != k ==> Scene()[i] == before[i];
      assert Scene()[k] == before[k].(dragOffset := Point(p.x - before[k].x, p.y - before[k].y), dragged := true);
    }

    method DragMatch(m: Match?)
      modifies m
      ensures m != null ==> m.State() == old(m.State()).(dragged := true)
    {
      if m == null {
        return;
      }
      m.dragged := true;
    }

    /** Ends the drag of the first dragged match; nothing when none is dragged. */
    method DropMatch()
      requires Valid()
      modifies matches
      ensures Valid() && matches == old(matches)
      ensures Scene() == Drop(old(Scene()))
    {
      var m := DraggedMatch();
      if m == null {
        return;
      }
      m.dragOffset := Point(0, 0);
      m.dragged := false;
    }

    /** The first match with the flag set, or null. */
    function FirstMatchWith(f: Flag): (m: Match?)
      reads this, matches
      ensures m == null <==> NoneHas(Scene(), f)
      ensures m != null ==> m in matches && Has(m.State(), f)
      ensures FirstWith(Scene(), f).Some? ==> m == matches[FirstWith(Scene(), f).value]
    {
      match FirstWith(Scene(), f)
      case None => null
      case Some(k) => matches[k]
    }

    /** `filter(m => m.dragged)[0]`: the lowest dragged match, or null. */
    function DraggedMatch(): (m: Match?)
      reads this, matches
      ensures m == null <==> forall i :: 0 <= i < |matches| ==> !matches[i].dragged
      ensures m != null ==> exists k :: 0 <= k < |matches| && m == matches[k] && m.dragged &&
                                        forall j :: 0 <= j < k ==> !matches[j].dragged
    {
      FirstMatchWith(Dragged)
    }

    /** `filter(m => m.selected)[0]`: the lowest selected match, or null. */
    function SelectedMatch(): (m: Match?)
      reads this, matches
      ensures m == null <==> forall i :: 0 <= i < |matches| ==> !matches[i].selected
      ensures m != null ==> exists k :: 0 <= k < |matches| && m == matches[k] && m.selected &&
                                        forall j :: 0 <= j < k ==> !matches[j].selected
    {
      FirstMatchWith(Selected)
    }

    method ClearMatches()
      modifies this
      ensures Valid() && Scene() == []
    {
      matches := [];
    }

    /** The records `saveMatches` writes to storage. */
    function SaveMatches(): (items: seq<Record>)
      reads this, matches
      ensures |items| == |matches|
      ensures forall i :: 0 <= i < |matches| ==> items[i] == ToRecord(matches[i].State())
    {
      Save(Scene())
    }

    /** Replaces the scene by the stored records; nothing when none are stored. */
    method LoadMatches(stored: Option<seq<Record>>)
      requires Valid()
      modifies this
      ensures Valid()
      ensures stored.None? ==> matches == old(matches) && Scene() == old(Scene())
      ensures stored.Some? ==> Scene() == Load(stored.value)
      ensures forall i :: 0 <= i < |matches| ==> stored.Some? ==> fresh(matches[i])
    {
      if stored.None? {
        return;
      }
      ClearMatches();
      var items := stored.value;
      for i := 0 to |items|
        invariant Valid()
        invariant Scene() == Load(items[..i])
        invariant forall j :: 0 <= j < |matches| ==> fresh(matches[j])
      {
        var item := items[i];
        var m := new Match(item.x, item.y);
        m.width := item.w;
        m.height := item.h;
        if item.r {
          m.Rotate();
        }
        AddMatch(m);
        assert items[..i + 1] == items[..i] + [item];
      }
      assert items[..|items|] == items;
    }
  }
}

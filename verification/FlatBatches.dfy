/**
 * When a batch of events with file names for ids can be published at all, and
 * what the directory then holds, over the files that were there.
 */
module FlatBatches {
  import opened Outcomes
  import opened EventPaths
  import opened Publication
  import opened PublishedTrees

  /** The file of an event whose id is a file name. */
  function FileOf<E>(event: E, idOf: E -> string): Path {
    [".repo", "events", idOf(event) + ".yaml"]
  }

  /** Nothing else is at the place of an event, and two events of the batch with one id are one event. */
  ghost predicate Fits<S, E(!new)>(t: Tree<S, E>, events: seq<E>, idOf: E -> string) {
    && (events != [] ==> [".repo", "events"] !in t.files)
    && (forall i :: 0 <= i < |events| ==>
          && FileOf(events[i], idOf) !in t.dirs
          && (FileOf(events[i], idOf) in t.files ==> t.files[FileOf(events[i], idOf)] == EventDoc(events[i])))
    && (forall i, j :: 0 <= i < j < |events| && idOf(events[i]) == idOf(events[j]) ==> events[i] == events[j])
  }

  lemma SameFile<E>(a: E, b: E, idOf: E -> string)
    ensures FileOf(a, idOf) == FileOf(b, idOf) <==> idOf(a) == idOf(b)
  {
    if FileOf(a, idOf) == FileOf(b, idOf) {
      var x, y := idOf(a) + ".yaml", idOf(b) + ".yaml";
      assert x == FileOf(a, idOf)[2] == FileOf(b, idOf)[2] == y;
      assert idOf(a) == x[..|x| - 5] && idOf(b) == y[..|y| - 5];
    }
  }

  /** Where a flat event is written. */
  lemma FlatPlace<E>(event: E, idOf: E -> string)
    requires '/' !in idOf(event)
    ensures Target(idOf(event)) == At(FileOf(event, idOf)) && Directories(idOf(event)) == {[], [".repo"], [".repo", "events"]}
    ensures Contained(idOf(event))
  {
    hide Directories, Target, Contained, Components, Inside;
    FlatTarget(idOf(event));
    InsideTarget(idOf(event));
  }

  lemma TidyRoots<S, E>(t: Tree<S, E>)
    requires Tidy(t)
    ensures [] in t.dirs && [".repo"] in t.dirs && [] !in t.files && [".repo"] !in t.files
    ensures [".repo", "events"] in t.files ==> [".repo", "events"] !in t.dirs
    ensures forall p :: p in t.files && |p| == 3 && p[0] == ".repo" && p[1] == "events" ==> [".repo", "events"] in t.dirs
  {
    forall p | p in t.files && |p| == 3 && p[0] == ".repo" && p[1] == "events" ensures [".repo", "events"] in t.dirs {
      assert Parent(p) == [".repo", "events"];
    }
  }

  /** One flat event can be written exactly when no file is in the way and what is there is that event. */
  lemma FlatWrote<S, E>(rules: Rules<S, E>, t: Tree<S, E>, event: E)
    requires Tidy(t) && '/' !in rules.idOf(event)
    ensures var p := FileOf(event, rules.idOf);
            && (Wrote(rules, t, event).Ok? <==>
                  [".repo", "events"] !in t.files && p !in t.dirs && (p in t.files ==> t.files[p] == EventDoc(event)))
            && (Wrote(rules, t, event).Ok? ==>
                  Wrote(rules, t, event).value == Tree(t.files[p := EventDoc(event)], t.dirs + {[], [".repo"], [".repo", "events"]}))
  {
    hide Directories, Target, Contained, Tidy;
    FlatPlace(event, rules.idOf);
    TidyRoots(t);
    var p, above := FileOf(event, rules.idOf), {[], [".repo"], [".repo", "events"]};
    assert |p| == 3 && p[0] == ".repo" && p[1] == "events" && p !in above;
    hide FileOf;
    assert above !! t.files.Keys <==> [".repo", "events"] !in t.files;
    assert p in t.files ==> above <= t.dirs;
  }

  /** The directory once the batch is written: each event in its file, everything else as it was. */
  ghost predicate IsWritten<S, E(!new)>(t: Tree<S, E>, events: seq<E>, idOf: E -> string, w: Tree<S, E>) {
    && w.dirs == t.dirs + (if events == [] then {} else {[], [".repo"], [".repo", "events"]})
    && (forall p :: p in w.files <==> p in t.files || exists i :: 0 <= i < |events| && FileOf(events[i], idOf) == p)
    && (forall p :: p in t.files && p in w.files ==> w.files[p] == t.files[p])
    && (forall i :: 0 <= i < |events| ==> FileOf(events[i], idOf) in w.files && w.files[FileOf(events[i], idOf)] == EventDoc(events[i]))
  }

  lemma {:induction false} FlatWroteAll<S, E(!new)>(rules: Rules<S, E>, t: Tree<S, E>, events: seq<E>)
    requires Tidy(t) && forall i :: 0 <= i < |events| ==> '/' !in rules.idOf(events[i])
    ensures WroteAll(rules, t, events).Ok? <==> Fits(t, events, rules.idOf)
    ensures WroteAll(rules, t, events).Ok? ==> IsWritten(t, events, rules.idOf, WroteAll(rules, t, events).value)
    decreases |events|
  {
    hide Tidy, Wrote, IsWritten, Fits;
    if events == [] {
      NothingWritten(t, rules.idOf);
    } else {
      var k := |events| - 1;
      var before := WroteAll(rules, t, events[..k]);
      assert forall i :: 0 <= i < k ==> events[..k][i] == events[i];
      FlatWroteAll(rules, t, events[..k]);
      FitsOneMore(t, events, rules.idOf);
      if before.Ok? {
        WroteAllTidy(rules, t, events[..k]);
        FlatWrote(rules, before.value, events[k]);
        LastFits(t, before.value, events, rules.idOf);
        if Fits(t, events, rules.idOf) { WrittenGrows(t, before.value, events, rules.idOf); }
      }
    }
  }

  lemma NothingWritten<S, E(!new)>(t: Tree<S, E>, idOf: E -> string)
    ensures Fits(t, [], idOf) && IsWritten(t, [], idOf, t)
  {
  }

  lemma WrittenGrows<S, E(!new)>(t: Tree<S, E>, w: Tree<S, E>, events: seq<E>, idOf: E -> string)
    requires events != [] && IsWritten(t, events[..|events| - 1], idOf, w) && Fits(t, events, idOf)
    ensures var last := events[|events| - 1];
            IsWritten(t, events, idOf, Tree(w.files[FileOf(last, idOf) := EventDoc(last)], w.dirs + {[], [".repo"], [".repo", "events"]}))
  {
    var k, last := |events| - 1, events[|events| - 1];
    var grown := Tree(w.files[FileOf(last, idOf) := EventDoc(last)], w.dirs + {[], [".repo"], [".repo", "events"]});
    forall i | 0 <= i < |events|
      ensures FileOf(events[i], idOf) in grown.files && grown.files[FileOf(events[i], idOf)] == EventDoc(events[i])
    {
      if i < k {
        assert events[..k][i] == events[i];
        SameFile(events[i], last, idOf);
      }
    }
    forall p ensures p in grown.files <==> p in t.files || exists i :: 0 <= i < |events| && FileOf(events[i], idOf) == p {
      if i :| 0 <= i < k && FileOf(events[..k][i], idOf) == p { assert FileOf(events[i], idOf) == p; }
      if i :| 0 <= i < |events| && FileOf(events[i], idOf) == p { if i < k { assert FileOf(events[..k][i], idOf) == p; } }
      if p == FileOf(last, idOf) { assert FileOf(events[k], idOf) == p; }
    }
  }

  /** A batch fits when all but its last event do and the last one does after them. */
  lemma FitsOneMore<S, E(!new)>(t: Tree<S, E>, events: seq<E>, idOf: E -> string)
    requires events != []
    ensures var k, last := |events| - 1, events[|events| - 1];
            Fits(t, events, idOf) <==>
            && Fits(t, events[..k], idOf) && [".repo", "events"] !in t.files
            && FileOf(last, idOf) !in t.dirs && (FileOf(last, idOf) in t.files ==> t.files[FileOf(last, idOf)] == EventDoc(last))
            && forall i :: 0 <= i < k && idOf(events[i]) == idOf(last) ==> events[i] == last
  {
    var k := |events| - 1;
    assert forall i :: 0 <= i < k ==> events[..k][i] == events[i];
  }

  lemma LastFits<S, E(!new)>(t: Tree<S, E>, w: Tree<S, E>, events: seq<E>, idOf: E -> string)
    requires events != [] && Fits(t, events[..|events| - 1], idOf) && IsWritten(t, events[..|events| - 1], idOf, w)
    ensures var k, last := |events| - 1, events[|events| - 1];
            var p := FileOf(last, idOf);
            ([".repo", "events"] !in w.files && p !in w.dirs && (p in w.files ==> w.files[p] == EventDoc(last)))
            <==>
            && [".repo", "events"] !in t.files && p !in t.dirs && (p in t.files ==> t.files[p] == EventDoc(last))
            && forall i :: 0 <= i < k && idOf(events[i]) == idOf(last) ==> events[i] == last
  {
    var k, last := |events| - 1, events[|events| - 1];
    forall i | 0 <= i < k
      ensures events[..k][i] == events[i] && (FileOf(events[i], idOf) == FileOf(last, idOf) <==> idOf(events[i]) == idOf(last))
      ensures FileOf(events[i], idOf) != [".repo", "events"]
    {
      SameFile(events[i], last, idOf);
    }
  }

  /**
   * A batch of events with file names for ids can be published exactly when
   * the state and the events are valid, no directory is in the place of
   * project.yaml, STATUS.md or an event, no file is in the place of the events
   * directory, and no file of an id, nor another event of the batch, says
   * anything else under that id.
   */
  lemma FlatStagesExactly<S, E(!new)>(rules: Rules<S, E>, a: Option<Tree<S, E>>, state: S, events: seq<E>)
    requires (a.Some? ==> OnDisk(a.value)) && forall i :: 0 <= i < |events| ==> '/' !in rules.idOf(events[i])
    ensures Stage(rules, a, state, events).Some? <==>
            && rules.valid(state) && (forall i :: 0 <= i < |events| ==> rules.validEvent(events[i]))
            && (a.Some? ==>
                  && [".repo", "project.yaml"] !in a.value.dirs && [".repo", "STATUS.md"] !in a.value.dirs
                  && Fits(a.value, events, rules.idOf))
            && (a.None? ==> forall i, j :: 0 <= i < j < |events| && rules.idOf(events[i]) == rules.idOf(events[j]) ==> events[i] == events[j])
  {
    BaseTidy(a, state);
    hide WroteAll, Tidy, OnDisk, OursOf, Fits, AllFit;
    var base := Base(a);
    if a.None? { FitsEmpty<S, E>(events, rules.idOf); NonePrior(rules, events); }
    if PROJECT !in base.dirs {
      var t := Tree(base.files[PROJECT := ProjectDoc(state)], base.dirs);
      FlatWroteAll(rules, t, events);
      FitsOver(base, state, events, rules.idOf);
      if a.Some? && Fits(a.value, events, rules.idOf) { FitsPrior(rules, a.value, events); }
    }
  }

  lemma FitsOver<S, E(!new)>(t: Tree<S, E>, state: S, events: seq<E>, idOf: E -> string)
    ensures Fits(Tree(t.files[PROJECT := ProjectDoc(state)], t.dirs), events, idOf) <==> Fits(t, events, idOf)
  {
    forall i | 0 <= i < |events| ensures FileOf(events[i], idOf) != PROJECT {}
    assert [".repo", "events"] != PROJECT by { assert PROJECT[1] == "project.yaml"; }
  }

  lemma FitsEmpty<S, E(!new)>(events: seq<E>, idOf: E -> string)
    ensures Fits(Base<S, E>(None), events, idOf) <==>
            forall i, j :: 0 <= i < j < |events| && idOf(events[i]) == idOf(events[j]) ==> events[i] == events[j]
  {
    forall i | 0 <= i < |events| ensures FileOf(events[i], idOf) !in {[], REPO, EVENTS} {}
  }

  lemma NonePrior<S, E>(rules: Rules<S, E>, events: seq<E>)
    ensures AllFit(rules, None, events)
  {
  }

  lemma FitsPrior<S, E(!new)>(rules: Rules<S, E>, t: Tree<S, E>, events: seq<E>)
    requires Fits(t, events, rules.idOf) && forall i :: 0 <= i < |events| ==> '/' !in rules.idOf(events[i])
    ensures AllFit(rules, Some(t), events)
  {
    hide Directories, Target, Contained;
    forall i | 0 <= i < |events| ensures PriorFits(rules, Some(t), events[i]) { FlatPlace(events[i], rules.idOf); }
  }
}

/**
  A collapse whose merge request does not conserve the paths of the recordings, or
  cannot be carried out.
 */
module MergeExample {
  import opened Endpoints
  import opened Options
  import opened PathTrieSpec
  import opened EndpointPaths
  import opened EndpointResolver
  import opened SqlLike
  import opened RecordingTables
  import opened RecordingMerge
  import opened RecordingMergePlans
  import opened RecordingMergeTheorems

  const HERE := Origin("http", "host", 80)

  /** Three observed paths, which make the root collapse. */
  const OBSERVED: seq<Path> := [["a"], ["ab"], ["{_}b"]]

  /** Two endpoints among them, one with an exchange. */
  const STORED := Db(map["r" := Recording(Target(HERE, "/ab"), 0, 1), "s" := Recording(Target(HERE, "/{_}b"), 0, 0)],
                     [Row("r", Exchange("x", ""), 0)], {}, {})

  const REQUEST := MergeRequest(HERE, ["/a", "/ab", "/{_}b"], "/{_}")

  lemma ObservedKids()
    ensures Kids(OBSERVED, []) == {"a", "ab", "{_}b"} && LiteralKids(OBSERVED, []) == {"a", "ab", "{_}b"}
  {
    assert OBSERVED[0] == ["a"] && OBSERVED[1] == ["ab"] && OBSERVED[2] == ["{_}b"];
    forall k ensures k in Kids(OBSERVED, []) <==> k in {"a", "ab", "{_}b"} {
      if k in {"a", "ab", "{_}b"} {
        var i := if k == "a" then 0 else if k == "ab" then 1 else 2;
        assert [] < OBSERVED[i] && OBSERVED[i][0] == k;
      }
    }
    assert |"{_}b"| != |PLACEHOLDER|;
  }

  /** The third observation makes the root collapse, and the collapse issues the request. */
  lemma RequestIsOfCollapse()
    ensures Frontier(OBSERVED, []) && Asks(REQUEST, HERE, OBSERVED, [])
  {
    ObservedKids();
    CountRoot(OBSERVED);
    assert |LiteralKids(OBSERVED, [])| == 3;
    assert ParentPath([]) == "/" && ParentPath([]) + PLACEHOLDER == "/{_}";
    forall k ensures k in LiteralKids(OBSERVED, []) <==> ParentPath([]) + k in REQUEST.sourcePrefixes {
      assert ("/" + k)[1..] == k && "/a"[1..] == "a" && "/ab"[1..] == "ab" && "/{_}b"[1..] == "{_}b";
      assert "/" + "a" == "/a" && "/" + "ab" == "/ab" && "/" + "{_}b" == "/{_}b";
    }
  }

  lemma StoredIsDense()
    ensures Dense(STORED)
  {
    var ledger: Ledger := map["r" := [0], "s" := []];
    assert Lists(STORED.rows, "r", ledger["r"]);
    assert Lists(STORED.rows, "s", ledger["s"]);
    assert Books(STORED, ledger);
    assert Counted(STORED, ledger);
  }

  /** The request selects what its prefixes start. */
  lemma SelectedByRequest(path: string, i: nat)
    requires i < 3 && REQUEST.sourcePrefixes[i] <= path
    ensures Matches(path, REQUEST.sourcePrefixes)
  {
    var source := REQUEST.sourcePrefixes[i];
    assert '\\' !in source;
    RawMatchesItself(source);
    RawMissTheorem(source);
    assert Like(source + "%", path);
  }

  lemma StoredCross()
    ensures Crossing(STORED, REQUEST, "r", "s") && AlwaysCommits(STORED, REQUEST)
  {
    SelectedByRequest("/ab", 0);
    SelectedByRequest("/{_}b", 2);
    assert 0 in RowsOf(STORED.rows, "r");
  }

  ghost predicate Misplaces(db: Db, request: MergeRequest, plan: seq<Group>) {
    && IsPlan(db, request, plan) && MergeAll(db, request.origin, plan).Some?
    && !AllArrive(db, request, MergeAll(db, request.origin, plan).value)
  }

  /** Some order of its groups commits and misplaces an exchange. */
  lemma SomeOrderMisplaces()
    ensures exists plan :: Misplaces(STORED, REQUEST, plan)
  {
    StoredIsDense();
    StoredCross();
    MergeTheorem(STORED, REQUEST);
    CommitTheorem(STORED, REQUEST);
    assert !Uncrossed(STORED, REQUEST, "r");
    var plan :| !Lands(STORED, REQUEST, plan);
    assert Commits(STORED, REQUEST, plan);
    assert Misplaces(STORED, REQUEST, plan);
  }

  // ---- A merge that is rolled back ----

  /** Two endpoints that move to the same path, one of them referenced by a campaign that is not active. */
  const REFERENCED := Db(map["p" := Recording(Target(HERE, "/a"), 0, 0), "q" := Recording(Target(HERE, "/{_}b"), 0, 0)],
                         [], {}, {"p"})

  lemma ReferencedIsDense()
    ensures Dense(REFERENCED)
  {
    var ledger: Ledger := map["p" := [], "q" := []];
    assert Lists(REFERENCED.rows, "p", ledger["p"]);
    assert Lists(REFERENCED.rows, "q", ledger["q"]);
    assert Books(REFERENCED, ledger);
    assert Counted(REFERENCED, ledger);
  }

  lemma SameNewPath()
    ensures NewPath(REFERENCED, REQUEST, "p") == "/{_}" && NewPath(REFERENCED, REQUEST, "q") == "/{_}"
  {
    var sources := REQUEST.sourcePrefixes;
    assert sources[0] == "/a" && sources[0] <= "/a" && "/a"[2..] == "";
    assert sources[1..] == ["/ab", "/{_}b"] && ["/ab", "/{_}b"][1..] == ["/{_}b"];
    assert "/a"[1] != "/{_}b"[1] && !("/a" <= "/{_}b") && !("/ab" <= "/{_}b");
    assert "/{_}b"[5..] == "";
    assert RewriteTargetPath("/{_}b", ["/{_}b"], "/{_}") == "/{_}";
    assert RewriteTargetPath("/{_}b", ["/ab", "/{_}b"], "/{_}") == "/{_}";
  }

  lemma ReferencedIsDeletable()
    ensures Deletable(REFERENCED, REQUEST, "p")
  {
    SelectedByRequest("/a", 0);
    SelectedByRequest("/{_}b", 2);
    SameNewPath();
    assert JoinsAt(REFERENCED, REQUEST, "q", "/{_}");
  }

  /** Some order of its groups fails, and the merge is rolled back. */
  lemma SomeOrderRollsBack()
    ensures exists plan :: IsPlan(REFERENCED, REQUEST, plan) && MergeAll(REFERENCED, HERE, plan) == None
  {
    ReferencedIsDense();
    ReferencedIsDeletable();
    CommitTheorem(REFERENCED, REQUEST);
    var plan :| !Commits(REFERENCED, REQUEST, plan);
    assert IsPlan(REFERENCED, REQUEST, plan) && MergeAll(REFERENCED, HERE, plan) == None;
  }
}

/** A table that the image contract refuses only because its resolver takes two
    links that answer each other for a cycle. */
module ImageFalseAlarm {
  import opened Wrappers
  import opened ImagePaths
  import opened ImageOverlay
  import opened ImageLinks
  import opened ImageLoops
  import opened ImageContract
  import opened ImageAccepted

  const INTERPRETER := FileEntry(RegularFile, 0x1ED, 0, 0, 1, "", "")

  /** The interpreter of the virtual environment links to /a/x/y; "a" links to
      "/b" and "b/x" links to "/a". POSIX resolution ends at b/y. */
  function AnsweringLinks(): Entries {
    map[VENV_PYTHON_PATH := LinkTo("/a/x/y"), "a" := LinkTo("/b"), "b/x" := LinkTo("/a"), "b/y" := INTERPRETER]
  }

  lemma Lead()
    ensures Parts("opt/venv/bin") == ["opt", "venv", "bin"]
    ensures Join(["opt"]) == "opt" && Join(["opt", "venv"]) == "opt/venv" && Join(["opt", "venv", "bin"]) == "opt/venv/bin"
  {
    hide Parts, Join;
    JoinOne("opt");
    PartsOfTwo("opt", "venv");
    assert "opt" + "/" + "venv" == "opt/venv";
    JoinOne("bin");
    assert ["opt", "venv"] + ["bin"] == ["opt", "venv", "bin"];
    JoinAppend(["opt", "venv"], ["bin"]);
    assert "opt/venv" + "/" + "bin" == "opt/venv/bin";
    PartsOfThree("opt", "venv", "bin");
    assert "opt" + "/" + "venv" + "/" + "bin" == "opt/venv/bin";
  }

  lemma PythonParts()
    ensures Parts(VENV_PYTHON_PATH) == ["opt", "venv", "bin", "python"]
    ensures Join(["opt", "venv", "bin", "python"]) == VENV_PYTHON_PATH
  {
    hide Parts, Join;
    Lead();
    JoinOne("python");
    assert ["opt", "venv", "bin"] + ["python"] == ["opt", "venv", "bin", "python"];
    JoinAppend(["opt", "venv", "bin"], ["python"]);
    assert "opt/venv/bin" + "/" + "python" == VENV_PYTHON_PATH;
    PartsConcat("opt/venv/bin", "python");
    PartsOfOne("python");
  }

  lemma TargetParts()
    ensures Parts("/a/x/y") == ["a", "x", "y"]
    ensures Parts("/b") == ["b"] && Parts("/a") == ["a"]
  {
    hide Parts, Join;
    assert "/a" + "/" + "x/y" == "/a/x/y" && "x" + "/" + "y" == "x/y";
    AbsoluteParts("a");
    AbsoluteParts("b");
    assert "/" + "a" == "/a" && "/" + "b" == "/b";
    PartsConcat("/a", "x/y");
    PartsOfTwo("x", "y");
  }

  lemma NotDynamic(path: string)
    requires path != "" && (path[0] in {'b', 'o'} || |path| == 1)
    ensures !IsDynamic(path)
  {
    forall root | root in DYNAMIC_RUNTIME_ROOTS ensures |root| > 1 && root[0] in {'a', 'd', 'p', 'r', 's', 't'} {
    }
    forall root | root in DYNAMIC_RUNTIME_ROOTS ensures !IsBeneath(path, root) {
      assert (root + "/")[0] == root[0];
    }
  }

  /** The resolver and POSIX on the interpreter's link. */
  lemma AnswersDiffer()
    ensures Resolve(AnsweringLinks(), Parts(VENV_PYTHON_PATH), [], {}) == Cycle
    ensures Evaluate(AnsweringLinks(), Parts(VENV_PYTHON_PATH), [], {}) == Ended(["b", "y"])
  {
    var m, p := AnsweringLinks(), ["opt", "venv", "bin", "python"];
    hide Parts, Join, Resolve, Evaluate, IsDynamic;
    PythonParts();
    TargetParts();
    Lead();
    assert p[..1] == ["opt"] && p[..2] == ["opt", "venv"] && p[..3] == ["opt", "venv", "bin"] && p[..4] == p && p[0..] == p;
    NotDynamic("opt");
    NotDynamic("opt/venv");
    NotDynamic("opt/venv/bin");
    NotDynamic(VENV_PYTHON_PATH);
    EnterLink(m, p, 0);
    JoinOne("a");
    JoinOne("b");
    PartsOfTwo("b", "x");
    PartsOfTwo("b", "y");
    assert "b" + "/" + "x" == "b/x" && "b" + "/" + "y" == "b/y";
    NotDynamic("a");
    NotDynamic("b");
    NotDynamic("b/x");
    NotDynamic("b/y");
    FalseAlarmShape(m, "a", "b", "x", "y", {VENV_PYTHON_PATH});
  }

  lemma OnlyPythonTracked(p: string)
    requires p in AnsweringLinks()
    ensures IsTracked(p) <==> p == VENV_PYTHON_PATH
  {
    assert IsBeneath(VENV_PYTHON_PATH, "opt/venv");
    if p != VENV_PYTHON_PATH {
      forall root | root in PROTECTED_ROOTS ensures !IsBeneath(p, root) {
        assert |root| >= 3;
      }
    }
  }

  /** The table is refused although POSIX resolution of its one protected link
      arrives at a root-owned executable, and although every other demand of
      the permission check is met. */
  lemma FalseAlarmExample()
    ensures var m := AnsweringLinks();
      && !PermissionsHold(m)
      && (forall p :: p in m && IsTracked(p) ==> p == VENV_PYTHON_PATH && EntryPermitted(p, m[p]))
      && Resolve(m, Parts(VENV_PYTHON_PATH), [], {}) == Cycle
      && Ends(m, Start(VENV_PYTHON_PATH), Arrived(["b", "y"]))
      && Join(["b", "y"]) in m && PythonHolds(Success(Some(m[Join(["b", "y"])])))
  {
    hide *;
    AnswersDiffer();
    Arrival();
    PythonPermitted();
    Interpreter();
    forall p | p in AnsweringLinks() ensures IsTracked(p) <==> p == VENV_PYTHON_PATH {
      OnlyPythonTracked(p);
    }
    CycleRefused(AnsweringLinks(), VENV_PYTHON_PATH);
  }

  lemma Interpreter()
    ensures Join(["b", "y"]) in AnsweringLinks()
    ensures PythonHolds(Success(Some(AnsweringLinks()[Join(["b", "y"])])))
  {
    assert Join(["b", "y"]) == "b/y" by {
      PartsOfTwo("b", "y");
      hide Join, Parts;
      assert "b" + "/" + "y" == "b/y";
    }
    hide Join;
  }

  lemma CycleRefused(m: Entries, p: string)
    requires p in m && IsTracked(p) && IsLink(m, p) && Resolve(m, Parts(p), [], {}) == Cycle
    ensures !PermissionsHold(m)
  {
    hide Resolve, Parts, EntryPermitted, IsTracked, IsLink;
    assert !LeadsSomewhere(m, p);
  }

  lemma Arrival()
    ensures Ends(AnsweringLinks(), Start(VENV_PYTHON_PATH), Arrived(["b", "y"]))
  {
    AnswersDiffer();
    hide Resolve, Parts, Evaluate;
    var m, p := AnsweringLinks(), Parts(VENV_PYTHON_PATH);
    var n := EvaluateEnds(m, p, [], {});
    EndOfStretch(m, p, n, ["b", "y"]);
  }

  lemma PythonPermitted()
    ensures VENV_PYTHON_PATH in AnsweringLinks() && IsLink(AnsweringLinks(), VENV_PYTHON_PATH)
    ensures EntryPermitted(VENV_PYTHON_PATH, AnsweringLinks()[VENV_PYTHON_PATH])
  {
    var root := APP_ROOT;
    assert VENV_PYTHON_PATH[0] == 'o' && (root + "/")[0] == 'a' && root[0] == 'a';
  }
}

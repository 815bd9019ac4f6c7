/** The configurations and expectations of customLabels_test.go, stated
    about the model. */
module TestSuite {
  import opened Wrappers
  import opened Notifiers
  import opened Document
  import opened Rules
  import opened SlidingCache
  import opened Resolver

  /** The valid configuration of the test suite, as notifiers. */
  function TestNotifiers(): seq<Notifier>
  {
    [Notifier(["string1", "string2"], ["owner:fotocasa"]), Notifier(["string3", "string4"], ["owner:mads"])]
  }

  lemma TestNotifiersValid()
    ensures ValidNotifiers(TestNotifiers())
  {
  }

  /** Two notifiers with one valid owner tag each, where the second one's
      first prefix is none of the first one's prefixes: each first prefix
      maps to the name after its own notifier's `owner:`. */
  lemma TwoNotifiers(a1: string, a2: string, t1: string, b1: string, b2: string, t2: string)
    requires IsOwnerTagPattern(t1) && IsOwnerTagPattern(t2)
    requires b1 != a1 && b1 != a2
    ensures var ns := [Notifier([a1, a2], [t1]), Notifier([b1, b2], [t2])];
            && a1 in Compile(ns) && Compile(ns)[a1] == t1[|OwnerPrefix|..]
            && b1 in Compile(ns) && Compile(ns)[b1] == t2[|OwnerPrefix|..]
            && forall p :: p in Compile(ns) ==> p in [a1, a2, b1, b2]
  {
    var ns := [Notifier([a1, a2], [t1]), Notifier([b1, b2], [t2])];
    OwnerLabelOfValidTag(t1);
    OwnerLabelOfValidTag(t2);
    assert LastOwner(ns[0].tags) == Some(t1[|OwnerPrefix|..]);
    assert LastOwner(ns[1].tags) == Some(t2[|OwnerPrefix|..]);
    assert Claims(ns[0], a1) && !Claims(ns[0], b1) && Claims(ns[1], b1);
    assert ns[1..] == [ns[1]];
    assert FirstClaim(ns, a1) == Some(t1[|OwnerPrefix|..]);
    assert FirstClaim(ns, b1) == Some(t2[|OwnerPrefix|..]);
    CompileCorrect(ns);
    forall p | p in Compile(ns) ensures p in [a1, a2, b1, b2] {
      FirstClaimIsFirst(ns, p);
      var i :| 0 <= i < |ns| && Claims(ns[i], p);
    }
  }

  /** The valid configuration of the test suite compiles to `string1` ->
      `fotocasa` and `string3` -> `mads`. */
  lemma TestConfigCompiles()
    ensures "string1" in Compile(TestNotifiers()) && Compile(TestNotifiers())["string1"] == "fotocasa"
    ensures "string3" in Compile(TestNotifiers()) && Compile(TestNotifiers())["string3"] == "mads"
    ensures forall p :: p in Compile(TestNotifiers()) ==> p in ["string1", "string2", "string3", "string4"]
  {
    assert IsOwnerTagPattern("owner:fotocasa") && IsOwnerTagPattern("owner:mads");
    assert "owner:fotocasa"[|OwnerPrefix|..] == "fotocasa";
    assert "owner:mads"[|OwnerPrefix|..] == "mads";
    TwoNotifiers("string1", "string2", "owner:fotocasa", "string3", "string4", "owner:mads");
  }

  /** ... and is accepted. */
  lemma TestConfigAccepted()
    ensures New(Encode(TestNotifiers()), 1, 1) == Success(Labels(Compile(TestNotifiers()), map[], 1, 1))
  {
    TestNotifiersValid();
    NewFromNotifiers(TestNotifiers(), 1, 1);
  }

  /** The fetch test: `string1` is not cached at first, resolves to
      `fotocasa`, and is cached afterwards. */
  lemma TestFetchLabel(c: Labels, now: int, owner: string, c': Labels)
    requires New(Encode(TestNotifiers()), 1, 1) == Success(c)
    requires FetchStep(c, "string1", now, owner, c')
    ensures Get(c.cache, "string1", now).None?
    ensures owner == "fotocasa"
    ensures Get(c'.cache, "string1", now) == Some("fotocasa")
  {
    TestConfigAccepted();
    TestConfigCompiles();
    TestOnlyMatch(c.labelByPrefix);
    MissWithSingleMatch(c, "string1", now, owner, c', "string1");
  }

  lemma TestOnlyMatch(table: Table)
    requires forall p :: p in table ==> p in ["string1", "string2", "string3", "string4"]
    ensures forall p :: Matches(table, p, "string1") ==> p == "string1"
  {
  }
}

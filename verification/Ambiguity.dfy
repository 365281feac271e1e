// Exactly when the three files define some name twice.
module Ambiguity {
  import opened Text
  import opened Interfaces
  import opened Emission
  import opened HeaderReading
  import opened SourceReading
  import opened Linking
  import opened Naming

  /** Tells the families of names apart, and the fixed names from each other. */
  function Rank(s: string): nat {
    if |s| > 10 && s[|s| - 1] == 'R' then
      if s[|s| - 2] == 'R' then 3000 else if s[|s| - 9] == 'E' then 1000 else 2000
    else if s != "" && s[0] == 'H' then 100
    else if |s| < 50 then |s| else 50
  }

  ghost predicate Ranked(ids: seq<string>, ranks: set<nat>) {
    forall i :: 0 <= i < |ids| ==> Rank(ids[i]) in ranks
  }

  lemma NoDuplicatesJoin(a: seq<string>, ra: set<nat>, b: seq<string>, rb: set<nat>)
    requires NoDuplicates(a) && NoDuplicates(b) && Ranked(a, ra) && Ranked(b, rb) && ra !! rb
    ensures NoDuplicates(a + b) && Ranked(a + b, ra + rb)
  {
  }

  ghost predicate Disjoint(a: seq<string>, b: seq<string>) {
    forall i, j :: 0 <= i < |a| && 0 <= j < |b| ==> a[i] != b[j]
  }

  lemma NoDuplicatesConcat(a: seq<string>, b: seq<string>)
    ensures NoDuplicates(a + b) <==> NoDuplicates(a) && NoDuplicates(b) && Disjoint(a, b)
  {
    var c := a + b;
    if NoDuplicates(c) {
      forall i, j | 0 <= i < j < |a| ensures a[i] != a[j] { assert c[i] != c[j]; }
      forall i, j | 0 <= i < j < |b| ensures b[i] != b[j] { assert c[|a| + i] != c[|a| + j]; }
      forall i, j | 0 <= i < |a| && 0 <= j < |b| ensures a[i] != b[j] { assert c[i] != c[|a| + j]; }
    }
  }

  lemma {:induction false} NamesComeFromReady(es: seq<Interface>)
    ensures forall i :: 0 <= i < |HandleNames(es)| ==> HandleNames(es)[i] in ReadyNames(es)
    ensures forall i :: 0 <= i < |GpioNames(es)| ==> GpioNames(es)[i] in ReadyNames(es)
  {
    if es != [] {
      NamesComeFromReady(es[1..]);
    }
  }

  lemma {:induction false} DistinctWithinKinds(es: seq<Interface>)
    requires NoDuplicates(ReadyNames(es))
    ensures NoDuplicates(HandleNames(es)) && NoDuplicates(GpioNames(es))
  {
    if es != [] {
      var rest := es[1..];
      if es[0].ready {
        var u := Upper(es[0].name);
        NoDuplicatesConcat([u], ReadyNames(rest));
        DistinctWithinKinds(rest);
        NamesComeFromReady(rest);
        assert forall x :: x in ReadyNames(rest) ==> x != [u][0];
        NoDuplicatesConcat([u], HandleNames(rest));
        NoDuplicatesConcat([u], GpioNames(rest));
      } else {
        DistinctWithinKinds(rest);
      }
    }
  }

  lemma HandleIdsDistinct(names: seq<string>)
    requires NoDuplicates(names)
    ensures NoDuplicates(HandleIds(names)) && Ranked(HandleIds(names), {1000})
  {
    forall i | 0 <= i < |names|
      ensures Rank(HandleIds(names)[i]) == 1000
    {
      HandleIndexerEnds(names[i]);
    }
    forall i, j | 0 <= i < j < |names|
      ensures HandleIds(names)[i] != HandleIds(names)[j]
    {
      IndexersDiffer(names[i], names[j]);
    }
  }

  lemma GpioIdsDistinct(names: seq<string>)
    requires NoDuplicates(names)
    ensures NoDuplicates(GpioConstants(names)) && Ranked(GpioConstants(names), {7, 2000})
  {
    if names != [] {
      forall i | 0 <= i < |names|
        ensures Rank(GpioIds(names)[i]) == 2000
      {
        GpioIndexerEnds(names[i]);
      }
      forall i, j | 0 <= i < j < |names|
        ensures GpioIds(names)[i] != GpioIds(names)[j]
      {
        IndexersDiffer(names[i], names[j]);
      }
    }
  }

  lemma ErrorIdsDistinct(names: seq<string>)
    ensures NoDuplicates(ErrorIds(names)) <==> NoDuplicates(names)
    ensures Ranked(ErrorIds(names), {3000})
  {
    var ids := ErrorIds(names);
    forall i | 0 <= i < |names|
      ensures Rank(ids[i]) == 3000
    {
      InitErrorEnds(names[i]);
    }
    forall i, j | 0 <= i < j < |names|
      ensures ids[i] != ids[j] <==> names[i] != names[j]
    {
      IndexersDiffer(names[i], names[j]);
    }
    if NoDuplicates(ids) {
      assert forall i, j :: 0 <= i < j < |names| ==> ids[i] != ids[j];
    }
  }

  lemma TakenDistinct()
    ensures NoDuplicates(TAKEN)
    ensures NoDuplicates(TakenIds(TAKEN)) && Ranked(TakenIds(TAKEN), {3000})
  {
    assert TAKEN[0] == "PRIOR" && TAKEN[1] == "HANDLE" && TAKEN[2] == "CSP_CAN" && TAKEN[3] == "CSP_I2C";
    assert "CSP_CAN"[4] != "CSP_I2C"[4];
    assert "PRIOR"[0] != "MUTEX"[0];
    assert NoDuplicates(TAKEN);
    assert TakenIds(TAKEN) == ErrorIds(TAKEN);
    ErrorIdsDistinct(TAKEN);
  }

  lemma HandleTaggedDistinct(names: seq<string>)
    requires NoDuplicates(names)
    ensures NoDuplicates(HandleTagged(names)) && Ranked(HandleTagged(names), {1000, 24, 23})
  {
    HandleIdsDistinct(names);
    var tags := ["CFE_SRL_Handle_Indexer_t", "CFE_SRL_GNRL_DEVICE_NUM"];
    assert Rank(tags[0]) == 24 && Rank(tags[1]) == 23;
    if names != [] {
      NoDuplicatesJoin(HandleIds(names), {1000}, tags, {24, 23});
    }
  }

  lemma GpioTaggedDistinct(names: seq<string>)
    requires NoDuplicates(names)
    ensures NoDuplicates(GpioTagged(names)) && Ranked(GpioTagged(names), {20, 7, 2000, 22})
  {
    GpioIdsDistinct(names);
    assert Rank("CFE_SRL_TOT_GPIO_NUM") == 20 && Rank("CFE_SRL_GPIO_Indexer_t") == 22;
    NoDuplicatesJoin(["CFE_SRL_TOT_GPIO_NUM"], {20}, GpioConstants(names), {7, 2000});
    NoDuplicatesJoin(["CFE_SRL_TOT_GPIO_NUM"] + GpioConstants(names), {20} + {7, 2000}, ["CFE_SRL_GPIO_Indexer_t"],
                     {22});
  }

  /** What is defined apart from the error macros and the hand-written names. */
  lemma MissionDistinct(es: seq<Interface>)
    requires DistinctNames(es)
    ensures NoDuplicates(Defined(MissionItems(es)))
    ensures Ranked(Defined(MissionItems(es)), {21, 1000, 24, 23, 20, 7, 2000, 22})
  {
    DefinedMission(es);
    DistinctWithinKinds(es);
    HandleTaggedDistinct(HandleNames(es));
    GpioTaggedDistinct(GpioNames(es));
    assert Rank("CFE_SRL_MISSION_CFG_H") == 21;
    NoDuplicatesJoin(FixedHead(), {21}, HandleTagged(HandleNames(es)), {1000, 24, 23});
    NoDuplicatesJoin(FixedHead() + HandleTagged(HandleNames(es)), {21} + {1000, 24, 23}, GpioTagged(GpioNames(es)),
                     {20, 7, 2000, 22});
  }

  lemma FixedTailDistinct()
    ensures NoDuplicates(FixedTail()) && Ranked(FixedTail(), {100, 4, 17})
  {
    assert Rank("Handles") == 100 && Rank("GPIO") == 4 && Rank("CFE_SRL_EarlyInit") == 17;
  }

  lemma ErrorHeaderDistinct(es: seq<Interface>)
    requires DistinctNames(es)
    ensures NoDuplicates(Defined(ErrorItems(es))) && Ranked(Defined(ErrorItems(es)), {15, 3000})
  {
    DefinedErrorHeader(es);
    ErrorIdsDistinct(ReadyNames(es));
    assert Rank("CFE_SRL_ERROR_H") == 15;
    NoDuplicatesJoin(["CFE_SRL_ERROR_H"], {15}, ErrorIds(ReadyNames(es)), {3000});
  }

  /** The generated headers define nothing twice exactly when the ready names are distinct. */
  lemma HeaderNamesDistinct(es: seq<Interface>)
    ensures NoDuplicates(Defined(MissionItems(es)) + Defined(ErrorItems(es))) <==> DistinctNames(es)
  {
    var m, e := Defined(MissionItems(es)), Defined(ErrorItems(es));
    DefinedErrorHeader(es);
    ErrorIdsDistinct(ReadyNames(es));
    if DistinctNames(es) {
      MissionDistinct(es);
      ErrorHeaderDistinct(es);
      NoDuplicatesJoin(m, {21, 1000, 24, 23, 20, 7, 2000, 22}, e, {15, 3000});
    }
    NoDuplicatesConcat(m, e);
    NoDuplicatesConcat(["CFE_SRL_ERROR_H"], ErrorIds(ReadyNames(es)));
  }

  /** The same with the source; where a missing key cuts it short, only the headers define complete items. */
  lemma GeneratedNamesDistinct(es: seq<Interface>)
    requires AllHaveKeys(es)
    ensures NoDuplicates(Defined(MissionItems(es)) + Defined(ErrorItems(es)) + Defined(SourceItems(es))) <==>
            DistinctNames(es)
  {
    var m, e, s := Defined(MissionItems(es)), Defined(ErrorItems(es)), Defined(SourceItems(es));
    HeaderNamesDistinct(es);
    if DistinctNames(es) {
      MissionDistinct(es);
      ErrorHeaderDistinct(es);
      DefinedSource(es);
      FixedTailDistinct();
      NoDuplicatesJoin(m, {21, 1000, 24, 23, 20, 7, 2000, 22}, e, {15, 3000});
      NoDuplicatesJoin(m + e, {21, 1000, 24, 23, 20, 7, 2000, 22} + {15, 3000}, s, {100, 4, 17});
    }
    NoDuplicatesConcat(m + e, s);
  }

  lemma ErrorIdsTaken(names: seq<string>)
    ensures Disjoint(ErrorIds(names), TakenIds(TAKEN)) <==> forall i :: 0 <= i < |names| ==> names[i] !in TAKEN
  {
    var ids, taken := ErrorIds(names), TakenIds(TAKEN);
    forall i, j | 0 <= i < |names| && 0 <= j < |TAKEN|
      ensures ids[i] == taken[j] <==> names[i] == TAKEN[j]
    {
      assert taken[j] == InitError(TAKEN[j]);
      IndexersDiffer(names[i], TAKEN[j]);
    }
    assert forall j :: 0 <= j < |TAKEN| ==> TAKEN[j] in TAKEN;
  }

  /** A generated error macro is taken exactly if the core error header defines that very name. */
  lemma TakenIff(u: string)
    ensures u in TAKEN <==>
            InitError(u) in ["CFE_SRL_PRIOR_INIT_ERR", "CFE_SRL_HANDLE_INIT_ERR", "CFE_SRL_CSP_CAN_INIT_ERR",
                             "CFE_SRL_CSP_I2C_INIT_ERR", "CFE_SRL_CSP_INIT_ERR", "CFE_SRL_CSP_ROUTE_INIT_ERR",
                             "CFE_SRL_MUTEX_ATTR_INIT_ERR", "CFE_SRL_MUTEX_INIT_ERR"]
  {
    var ids := ["CFE_SRL_PRIOR_INIT_ERR", "CFE_SRL_HANDLE_INIT_ERR", "CFE_SRL_CSP_CAN_INIT_ERR",
                "CFE_SRL_CSP_I2C_INIT_ERR", "CFE_SRL_CSP_INIT_ERR", "CFE_SRL_CSP_ROUTE_INIT_ERR",
                "CFE_SRL_MUTEX_ATTR_INIT_ERR", "CFE_SRL_MUTEX_INIT_ERR"];
    TakenNames();
    MoreTakenNames();
    assert |TAKEN| == 8 && |ids| == 8;
    forall i | 0 <= i < 8
      ensures u == TAKEN[i] <==> InitError(u) == ids[i]
    {
      assert ids[i] == InitError(TAKEN[i]);
      IndexersDiffer(u, TAKEN[i]);
    }
    if u in TAKEN {
      var i :| 0 <= i < 8 && TAKEN[i] == u;
      assert InitError(u) == ids[i];
    }
    if InitError(u) in ids {
      var i :| 0 <= i < 8 && ids[i] == InitError(u);
      assert TAKEN[i] == u;
    }
  }

  lemma TakenNames()
    ensures InitError(TAKEN[0]) == "CFE_SRL_PRIOR_INIT_ERR" && InitError(TAKEN[1]) == "CFE_SRL_HANDLE_INIT_ERR"
    ensures InitError(TAKEN[2]) == "CFE_SRL_CSP_CAN_INIT_ERR" && InitError(TAKEN[3]) == "CFE_SRL_CSP_I2C_INIT_ERR"
  {
  }

  lemma MoreTakenNames()
    ensures InitError(TAKEN[4]) == "CFE_SRL_CSP_INIT_ERR" && InitError(TAKEN[5]) == "CFE_SRL_CSP_ROUTE_INIT_ERR"
    ensures InitError(TAKEN[6]) == "CFE_SRL_MUTEX_ATTR_INIT_ERR" && InitError(TAKEN[7]) == "CFE_SRL_MUTEX_INIT_ERR"
  {
  }

  /** Outside the error macros, no generated name can be a hand-written error name. */
  lemma RestIsNotTaken(es: seq<Interface>)
    requires AllHaveKeys(es)
    ensures Disjoint(Defined(MissionItems(es)), TakenIds(TAKEN)) && Disjoint(Defined(SourceItems(es)), TakenIds(TAKEN))
  {
    TakenDistinct();
    DefinedSource(es);
    FixedTailDistinct();
    MissionRanks(es);
    RanksSeparate(Defined(MissionItems(es)), {21, 1000, 24, 23, 20, 7, 2000, 22}, TakenIds(TAKEN), {3000});
    RanksSeparate(Defined(SourceItems(es)), {100, 4, 17}, TakenIds(TAKEN), {3000});
  }

  lemma RanksSeparate(a: seq<string>, ra: set<nat>, b: seq<string>, rb: set<nat>)
    requires Ranked(a, ra) && Ranked(b, rb) && ra !! rb
    ensures Disjoint(a, b)
  {
  }

  lemma HandleTaggedRanks(names: seq<string>)
    ensures Ranked(HandleTagged(names), {1000, 24, 23})
  {
    forall i | 0 <= i < |names|
      ensures Rank(HandleIds(names)[i]) == 1000
    {
      HandleIndexerEnds(names[i]);
    }
    assert Rank("CFE_SRL_Handle_Indexer_t") == 24 && Rank("CFE_SRL_GNRL_DEVICE_NUM") == 23;
  }

  lemma GpioTaggedRanks(names: seq<string>)
    ensures Ranked(GpioTagged(names), {20, 7, 2000, 22})
  {
    forall i | 0 <= i < |names|
      ensures Rank(GpioIds(names)[i]) == 2000
    {
      GpioIndexerEnds(names[i]);
    }
    assert Rank("CFE_SRL_TOT_GPIO_NUM") == 20 && Rank("CFE_SRL_GPIO_Indexer_t") == 22 && Rank("NOTHING") == 7;
  }

  lemma MissionRanks(es: seq<Interface>)
    ensures Ranked(Defined(MissionItems(es)), {21, 1000, 24, 23, 20, 7, 2000, 22})
  {
    DefinedMission(es);
    HandleTaggedRanks(HandleNames(es));
    GpioTaggedRanks(GpioNames(es));
    assert Rank("CFE_SRL_MISSION_CFG_H") == 21;
  }

  /**
   * Exactly when the linked program is unambiguous: the ready names are distinct
   * and none of them is the X of a hand-written `CFE_SRL_X_INIT_ERR`.
   */
  lemma UnambiguousIff(es: seq<Interface>)
    requires AllHaveKeys(es)
    ensures Unambiguous(Program(MissionItems(es), ErrorItems(es), SourceItems(es))) <==>
            DistinctNames(es) && FreeNames(es)
  {
    var m, e, s, t := Defined(MissionItems(es)), Defined(ErrorItems(es)), Defined(SourceItems(es)), TakenIds(TAKEN);
    GeneratedNamesDistinct(es);
    TakenDistinct();
    RestIsNotTaken(es);
    DefinedErrorHeader(es);
    ErrorIdsTaken(ReadyNames(es));
    NoDuplicatesConcat(m + e + s, t);
    DisjointConcat(m + e, s, t);
    DisjointConcat(m, e, t);
    GuardIsNotTaken();
    DisjointConcat(["CFE_SRL_ERROR_H"], ErrorIds(ReadyNames(es)), t);
  }

  lemma GuardIsNotTaken()
    ensures Disjoint(["CFE_SRL_ERROR_H"], TakenIds(TAKEN))
  {
    TakenDistinct();
    assert Rank("CFE_SRL_ERROR_H") == 15;
    RanksSeparate(["CFE_SRL_ERROR_H"], {15}, TakenIds(TAKEN), {3000});
  }

  lemma DisjointConcat(a: seq<string>, b: seq<string>, c: seq<string>)
    ensures Disjoint(a + b, c) <==> Disjoint(a, c) && Disjoint(b, c)
  {
    if Disjoint(a + b, c) {
      forall i, j | 0 <= i < |a| && 0 <= j < |c| ensures a[i] != c[j] { assert (a + b)[i] != c[j]; }
      forall i, j | 0 <= i < |b| && 0 <= j < |c| ensures b[i] != c[j] { assert (a + b)[|a| + i] != c[j]; }
    }
  }
}

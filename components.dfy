/**
 * find_componets_values: projects one annotation onto the requested component
 * ids. For each id the instances are scanned in order and every instance whose
 * element path starts with the id overwrites the value, so the last match wins;
 * an id nothing matches gets the empty string.
 */
module Components {
  import opened Wrappers

  datatype Attribute = Attribute(name: string)

  /**
   * An instance of an annotation. elementPath is None when the instance has no
   * "element_path" key; a path entry is None for a JSON null.
   */
  datatype Instance = Instance(elementPath: Option<seq<Option<string>>>, attributes: seq<Attribute>)

  /** An annotation document; instances is None when it has no "instances" key. */
  datatype Annotation = Annotation(instances: Option<seq<Instance>>)

  /** annotation.get("instances", []) */
  function Instances(a: Annotation): seq<Instance> {
    a.instances.GetOr([])
  }

  /** The instance's element path starts with id. */
  predicate Matches(inst: Instance, id: string) {
    inst.elementPath.Some? && |inst.elementPath.value| > 0 && inst.elementPath.value[0] == Some(id)
  }

  /**
   * What the scan needs in order not to raise: when any id is scanned, every
   * element path present is non-empty, and every instance matching a requested
   * id has a first attribute.
   */
  predicate WellFormedFor(a: Annotation, ids: seq<string>) {
    var insts := Instances(a);
    && (|ids| > 0 ==> forall k :: 0 <= k < |insts| && insts[k].elementPath.Some? ==> |insts[k].elementPath.value| > 0)
    && (forall id :: id in ids ==> MatchesHaveAttributes(insts, id))
  }

  predicate MatchesHaveAttributes(insts: seq<Instance>, id: string) {
    forall k :: 0 <= k < |insts| && Matches(insts[k], id) ==> |insts[k].attributes| > 0
  }

  /** The first attribute's name of the last instance matching id, if any. */
  function LastMatch(insts: seq<Instance>, id: string): Option<string>
    requires MatchesHaveAttributes(insts, id)
  {
    if insts == [] then None
    else
      var last := insts[|insts| - 1];
      if Matches(last, id) then Some(last.attributes[0].name)
      else LastMatch(insts[..|insts| - 1], id)
  }

  /** The value projected for id: the last match's name, or "". */
  function ComponentValue(a: Annotation, id: string): string
    requires MatchesHaveAttributes(Instances(a), id)
  {
    LastMatch(Instances(a), id).GetOr("")
  }

  /** The row find_componets_values builds: every requested id, and no other key. */
  function Projection(a: Annotation, ids: seq<string>): (values: map<string, string>)
    requires WellFormedFor(a, ids)
  {
    map id | id in ids :: ComponentValue(a, id)
  }

  /** An id that no instance matches, including when there are no instances, maps to "". */
  lemma {:induction false} NoMatchIsEmpty(insts: seq<Instance>, id: string)
    requires forall k :: 0 <= k < |insts| ==> !Matches(insts[k], id)
    ensures LastMatch(insts, id) == None
  {
    if insts != [] {
      NoMatchIsEmpty(insts[..|insts| - 1], id);
    }
  }

  /** When instance i matches and no later one does, its first attribute's name is the value. */
  lemma {:induction false} LastMatchWins(insts: seq<Instance>, id: string, i: nat)
    requires MatchesHaveAttributes(insts, id)
    requires i < |insts| && Matches(insts[i], id)
    requires forall j :: i < j < |insts| ==> !Matches(insts[j], id)
    ensures LastMatch(insts, id) == Some(insts[i].attributes[0].name)
  {
    if i < |insts| - 1 {
      var init := insts[..|insts| - 1];
      assert init[i] == insts[i];
      LastMatchWins(init, id, i);
    }
  }

  /** The value of an id that some instance matches is the name of one of the matching instances. */
  lemma {:induction false} LastMatchIsAMatch(insts: seq<Instance>, id: string)
    requires MatchesHaveAttributes(insts, id)
    ensures LastMatch(insts, id).Some? <==> exists k :: 0 <= k < |insts| && Matches(insts[k], id)
    ensures LastMatch(insts, id).Some? ==>
      exists k :: 0 <= k < |insts| && Matches(insts[k], id) && LastMatch(insts, id).value == insts[k].attributes[0].name
  {
    if insts != [] {
      var init := insts[..|insts| - 1];
      LastMatchIsAMatch(init, id);
      if !Matches(insts[|insts| - 1], id) && LastMatch(init, id).Some? {
        var k :| 0 <= k < |init| && Matches(init[k], id) && LastMatch(init, id).value == init[k].attributes[0].name;
        assert insts[k] == init[k];
      }
      if exists k :: 0 <= k < |insts| && Matches(insts[k], id) {
        var k :| 0 <= k < |insts| && Matches(insts[k], id);
        if k < |init| {
          assert init[k] == insts[k];
        }
      }
    }
  }

  /** The loop of find_componets_values. */
  method FindComponentValues(a: Annotation, ids: seq<string>) returns (values: map<string, string>)
    requires WellFormedFor(a, ids)
    ensures values.Keys == set id | id in ids
    ensures forall id :: id in ids ==> values[id] == ComponentValue(a, id)
    ensures values == Projection(a, ids)
  {
    values := map[];
    var insts := Instances(a);
    for i := 0 to |ids|
      invariant values.Keys == set id | id in ids[..i]
      invariant forall id :: id in values ==> MatchesHaveAttributes(insts, id) && values[id] == ComponentValue(a, id)
    {
      var id := ids[i];
      assert id in ids;
      ghost var before := values;
      for j := 0 to |insts|
        invariant MatchesHaveAttributes(insts[..j], id)
        invariant forall k :: k != id ==> (k in values <==> k in before)
        invariant forall k :: k != id && k in values ==> values[k] == before[k]
        invariant id in values <==> id in before || LastMatch(insts[..j], id).Some?
        invariant LastMatch(insts[..j], id).Some? ==> values[id] == LastMatch(insts[..j], id).value
        invariant LastMatch(insts[..j], id).None? && id in before ==> values[id] == before[id]
      {
        assert insts[..j + 1][..j] == insts[..j];
        var instance := insts[j];
        if instance.elementPath.Some? {
          var idInPath := instance.elementPath.value[0];
          if idInPath.Some? && idInPath.value == id {
            values := values[id := instance.attributes[0].name];
          }
        }
      }
      assert insts[..|insts|] == insts;
      if id !in values {
        values := values[id := ""];
      }
      assert ids[..i + 1] == ids[..i] + [id];
    }
    assert ids[..|ids|] == ids;
  }

  /** With exactly one matching instance, the value is that instance's first attribute's name. */
  lemma SingleMatch(a: Annotation, id: string, i: nat)
    requires MatchesHaveAttributes(Instances(a), id)
    requires i < |Instances(a)| && Matches(Instances(a)[i], id)
    requires forall j :: 0 <= j < |Instances(a)| && j != i ==> !Matches(Instances(a)[j], id)
    ensures ComponentValue(a, id) == Instances(a)[i].attributes[0].name
  {
    LastMatchWins(Instances(a), id, i);
  }

  /** The worked example: one instance under "compA" named "foo" gives {compA: "foo", compB: ""}. */
  lemma ProjectionExample()
    ensures Projection(Annotation(Some([Instance(Some([Some("compA"), Some("x")]), [Attribute("foo")])])), ["compA", "compB"])
            == map["compA" := "foo", "compB" := ""]
  {
    var inst := Instance(Some([Some("compA"), Some("x")]), [Attribute("foo")]);
    var a := Annotation(Some([inst]));
    assert Matches(inst, "compA") && !Matches(inst, "compB");
    assert Instances(a) == [inst];
    assert [inst][..0] == [];
    assert ComponentValue(a, "compA") == "foo";
    NoMatchIsEmpty([inst], "compB");
  }
}

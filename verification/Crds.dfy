/**
 CustomResourceDefinition objects as the watcher sees them: the name predicate, the
 Established check, the removal decision, and the transform that trims a CRD before
 the cache stores it.
 */
module Crds {
  datatype CrdCondition = CrdCondition(kind: string, status: string)

  datatype Crd = Crd(
    name: string,
    deleting: bool,
    conditions: seq<CrdCondition>,
    spec: string,
    managedFields: seq<string>,
    annotations: map<string, string>)

  /** The first condition of kind Established decides; without one the CRD is not established. */
  predicate IsEstablished(conditions: seq<CrdCondition>) {
    if conditions == [] then false
    else if conditions[0].kind == "Established" then conditions[0].status == "True"
    else IsEstablished(conditions[1..])
  }

  predicate IsRemoved(crd: Crd) {
    crd.deleting || !IsEstablished(crd.conditions)
  }

  predicate Matches(name: string, crd: Crd) {
    crd.name == name
  }

  /** A CRD is established exactly when some Established=True condition has no Established condition before it. */
  lemma {:induction false} EstablishedIffFirstIsTrue(conditions: seq<CrdCondition>)
    ensures IsEstablished(conditions) <==>
            exists i :: 0 <= i < |conditions| && conditions[i] == CrdCondition("Established", "True")
                        && forall j :: 0 <= j < i ==> conditions[j].kind != "Established"
  {
    if conditions != [] && conditions[0].kind != "Established" {
      var rest := conditions[1..];
      EstablishedIffFirstIsTrue(rest);
      if IsEstablished(rest) {
        var i :| 0 <= i < |rest| && rest[i] == CrdCondition("Established", "True")
                 && forall j :: 0 <= j < i ==> rest[j].kind != "Established";
        assert conditions[i + 1] == rest[i];
        assert forall j :: 0 <= j < i + 1 ==> conditions[j].kind != "Established" by {
          forall j | 0 <= j < i + 1 ensures conditions[j].kind != "Established" {
            if j > 0 {
              assert conditions[j] == rest[j - 1];
            }
          }
        }
      }
      if i :| 0 <= i < |conditions| && conditions[i] == CrdCondition("Established", "True")
              && forall j :: 0 <= j < i ==> conditions[j].kind != "Established" {
        assert rest[i - 1] == conditions[i];
        assert forall j :: 0 <= j < i - 1 ==> rest[j] == conditions[j + 1];
      }
    } else if conditions != [] && IsEstablished(conditions) {
      assert conditions[0] == CrdCondition("Established", "True");
    }
  }

  /** The CRD is installed: it is not being deleted, and the first Established condition it has is True. */
  ghost predicate Installed(crd: Crd) {
    !crd.deleting &&
    exists i :: 0 <= i < |crd.conditions| && crd.conditions[i] == CrdCondition("Established", "True")
                && forall j :: 0 <= j < i ==> crd.conditions[j].kind != "Established"
  }

  /** The watcher takes a CRD for removed exactly when it is not installed. */
  lemma RemovedIffNotInstalled(crd: Crd)
    ensures IsRemoved(crd) <==> !Installed(crd)
    ensures crd.deleting ==> IsRemoved(crd)
  {
    EstablishedIffFirstIsTrue(crd.conditions);
  }

  /** A CRD object in the informer's store; the transform trims it in place. */
  class CachedCrd {
    var name: string
    var deleting: bool
    var conditions: seq<CrdCondition>
    var spec: string
    var managedFields: seq<string>
    var annotations: map<string, string>

    constructor (crd: Crd)
      ensures View() == crd
    {
      name, deleting, conditions := crd.name, crd.deleting, crd.conditions;
      spec, managedFields, annotations := crd.spec, crd.managedFields, crd.annotations;
    }

    function View(): Crd
      reads this
    {
      Crd(name, deleting, conditions, spec, managedFields, annotations)
    }

    /** Trimming drops the bulky fields and changes neither decision the watcher takes on the object. */
    method TransformForCache()
      modifies this
      ensures View() == old(View()).(spec := "", managedFields := [], annotations := map[])
      ensures Installed(View()) == Installed(old(View())) && name == old(name)
    {
      spec := "";
      managedFields := [];
      annotations := map[];
    }
  }
}

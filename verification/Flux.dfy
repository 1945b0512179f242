/** Which Flux object applies an object now (internal/gitops/applying.go, owner.go):
    the labels name it, a Kustomization is held to its recorded inventory. */
module Flux {
  import opened Basics
  import opened Text

  type Labels = map<string, string>

  const KUSTOMIZE_NAME := "kustomize.toolkit.fluxcd.io/name"
  const KUSTOMIZE_NAMESPACE := "kustomize.toolkit.fluxcd.io/namespace"
  const HELM_NAME := "helm.toolkit.fluxcd.io/name"
  const HELM_NAMESPACE := "helm.toolkit.fluxcd.io/namespace"

  /** A Go map read: the empty string where there is no key. */
  function Get(m: Labels, key: string): string { if key in m then m[key] else "" }

  datatype Kind = KustomizationKind | HelmReleaseKind
  datatype Owner = Owner(kind: Kind, namespace: string, name: string)

  /** A Kustomization: whether it prunes, and the ids it recorded, if any. */
  datatype Kustomization = Kustomization(prune: bool, inventory: Option<seq<string>>)

  /** The Kustomizations of the cluster by namespace and name. */
  type Fleet = map<(string, string), Kustomization>

  datatype Ident = Ident(namespace: string, name: string, group: string, kind: string)

  function OwnerOf(labels: Labels): Option<Owner> {
    if Get(labels, KUSTOMIZE_NAME) != "" then
      Some(Owner(KustomizationKind, Get(labels, KUSTOMIZE_NAMESPACE), Get(labels, KUSTOMIZE_NAME)))
    else if Get(labels, HELM_NAME) != "" then
      Some(Owner(HelmReleaseKind, Get(labels, HELM_NAMESPACE), Get(labels, HELM_NAME)))
    else None
  }

  function InventoryID(id: Ident): string {
    id.namespace + "_" + id.name + "_" + id.group + "_" + id.kind
  }

  /** inventoryLists: the search loop over the entries. */
  method InventoryLists(entries: seq<string>, id: Ident) returns (listed: bool)
    ensures listed <==> InventoryID(id) in entries
  {
    var want := InventoryID(id);
    for i := 0 to |entries|
      invariant want !in entries[..i]
    {
      if entries[i] == want { return true; }
    }
    return false;
  }

  function Labelling(fleet: Fleet, labels: Labels): Option<Kustomization> {
    var owner := OwnerOf(labels);
    if owner.Some? && owner.value.kind.KustomizationKind? && (owner.value.namespace, owner.value.name) in fleet
    then Some(fleet[(owner.value.namespace, owner.value.name)])
    else None
  }

  /** A recorded inventory without the object. */
  predicate Dropped(ks: Kustomization, id: Ident) {
    ks.inventory.Some? && InventoryID(id) !in ks.inventory.value
  }

  function Applying(fleet: Fleet, labels: Labels, id: Ident): Option<Owner> {
    var owner := OwnerOf(labels);
    if owner.None? || owner.value.kind.HelmReleaseKind? then owner
    else
      var ks := Labelling(fleet, labels);
      if ks.None? || Dropped(ks.value, id) then None else owner
  }

  function Kept(fleet: Fleet, labels: Labels, id: Ident): Option<Owner> {
    var owner := OwnerOf(labels);
    if owner.None? || owner.value.kind.HelmReleaseKind? then None
    else
      var ks := Labelling(fleet, labels);
      if ks.None? || ks.value.prune || !Dropped(ks.value, id) then None else owner
  }

  /** inventoried and Applying as the source makes them. */
  method ApplyingNow(fleet: Fleet, labels: Labels, id: Ident) returns (r: Option<Owner>)
    ensures r == Applying(fleet, labels, id)
  {
    var owner := OwnerOf(labels);
    if owner.None? || !owner.value.kind.KustomizationKind? { return owner; }
    var ks := Labelling(fleet, labels);
    if ks.None? { return None; }
    var recorded, lists := ks.value.inventory.Some?, false;
    if recorded { lists := InventoryLists(ks.value.inventory.value, id); }
    return if !recorded || lists then owner else None;
  }

  /** Git declares the object, read off the labels, the Kustomizations and what they recorded:
      the Kustomization the labels name is there and has recorded no inventory, or one that has
      the object's namespace_name_group_kind; or the labels name a HelmRelease alone. */
  ghost predicate Declares(fleet: Fleet, labels: Labels, id: Ident, o: Owner) {
    match o.kind
    case KustomizationKind =>
      && o.name != "" && Get(labels, "kustomize.toolkit.fluxcd.io/name") == o.name
      && Get(labels, "kustomize.toolkit.fluxcd.io/namespace") == o.namespace
      && (o.namespace, o.name) in fleet
      && var recorded := fleet[(o.namespace, o.name)].inventory;
         (recorded.None? || exists entry :: entry in recorded.value && entry == id.namespace + "_" + id.name + "_" + id.group + "_" + id.kind)
    case HelmReleaseKind =>
      && Get(labels, "kustomize.toolkit.fluxcd.io/name") == "" && o.name != "" && Get(labels, "helm.toolkit.fluxcd.io/name") == o.name
      && Get(labels, "helm.toolkit.fluxcd.io/namespace") == o.namespace
  }

  lemma ApplyingDeclares(fleet: Fleet, labels: Labels, id: Ident, o: Owner)
    ensures Applying(fleet, labels, id) == Some(o) <==> Declares(fleet, labels, id, o)
  {
  }

  /** A Kustomization left the object behind: the labels name it, it is there and does not prune, and
      what it recorded has no entry of the object. */
  ghost predicate LeftBehind(fleet: Fleet, labels: Labels, id: Ident, o: Owner) {
    && o.kind.KustomizationKind? && o.name != "" && Get(labels, "kustomize.toolkit.fluxcd.io/name") == o.name
    && Get(labels, "kustomize.toolkit.fluxcd.io/namespace") == o.namespace
    && (o.namespace, o.name) in fleet && !fleet[(o.namespace, o.name)].prune
    && var recorded := fleet[(o.namespace, o.name)].inventory;
       recorded.Some? && forall entry :: entry in recorded.value ==> entry != id.namespace + "_" + id.name + "_" + id.group + "_" + id.kind
  }

  lemma KeptIsLeftBehind(fleet: Fleet, labels: Labels, id: Ident, o: Owner)
    ensures Kept(fleet, labels, id) == Some(o) <==> LeftBehind(fleet, labels, id, o)
  {
  }

  /** Of an object a standing Kustomization labels, the Kustomization applies it
      or has dropped it; Kept reports the dropped ones it will not prune. A live
      write is open (nothing applies) for every Kept object. */
  lemma AppliedOrDropped(fleet: Fleet, labels: Labels, id: Ident)
    ensures Kept(fleet, labels, id).Some? ==> Applying(fleet, labels, id).None?
    ensures Labelling(fleet, labels).Some? ==>
              (Applying(fleet, labels, id).Some? <==> !Dropped(Labelling(fleet, labels).value, id))
    ensures Labelling(fleet, labels).Some? && !Labelling(fleet, labels).value.prune ==>
              (Kept(fleet, labels, id).Some? <==> Applying(fleet, labels, id).None?)
    ensures forall o :: Applying(fleet, labels, id) == Some(o) ==> OwnerOf(labels) == Some(o)
  {
  }

  /** Only the four Flux labels are read: labels that agree on them are one verdict. */
  predicate SameFlux(a: Labels, b: Labels) {
    && Get(a, KUSTOMIZE_NAME) == Get(b, KUSTOMIZE_NAME)
    && Get(a, KUSTOMIZE_NAMESPACE) == Get(b, KUSTOMIZE_NAMESPACE)
    && Get(a, HELM_NAME) == Get(b, HELM_NAME)
    && Get(a, HELM_NAMESPACE) == Get(b, HELM_NAMESPACE)
  }

  /** An inventory id names one object: names carry no underscore. */
  lemma InventoryIDInjective(a: Ident, b: Ident)
    requires Free(a.namespace, '_') && Free(a.name, '_') && Free(a.group, '_')
    requires Free(b.namespace, '_') && Free(b.name, '_') && Free(b.group, '_')
    requires InventoryID(a) == InventoryID(b)
    ensures a == b
  {
    var ra, rb := a.group + "_" + a.kind, b.group + "_" + b.kind;
    var qa, qb := a.name + "_" + ra, b.name + "_" + rb;
    assert InventoryID(a) == a.namespace + ['_'] + qa;
    assert InventoryID(b) == b.namespace + ['_'] + qb;
    CutUnique(a.namespace, qa, b.namespace, qb, '_');
    CutUnique(a.name, ra, b.name, rb, '_');
    CutUnique(a.group, a.kind, b.group, b.kind, '_');
  }
}

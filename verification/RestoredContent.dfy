/** What a restored object contains: the archived one, but for what the server assigns, and for
    volumes and claims what binds them (restore.go:145-148, restore_pv.go:115-139). */
module RestoredContent {
  import opened Text
  import opened Objects
  import opened Resources
  import opened Paths
  import opened RestorePreference
  import opened RestorePipeline
  import opened Classification

  /** The same object with the same owners; the server is to assign version and UID anew. */
  predicate SameHead(item: Item, a: Item) {
    && item.apiVersion == a.apiVersion && item.kind == a.kind
    && item.namespace == a.namespace && item.name == a.name && item.owners == a.owners
    && item.resourceVersion == "" && item.uid == ""
  }

  /** One member is null, all others are as they were. */
  predicate Nulled(fields: map<string, Json>, before: map<string, Json>, member: string) {
    && fields.Keys == before.Keys + {member} && fields[member] == Null
    && forall k :: k in before && k != member ==> fields[k] == before[k]
  }

  /** One member of the spec and the status are null, all else is as it was. */
  predicate Released(fields: map<string, Json>, before: map<string, Json>, member: string) {
    && "spec" in before && before["spec"].Obj? && fields.Keys == before.Keys + {"status"}
    && fields["status"] == Null
    && fields["spec"].Obj? && Nulled(fields["spec"].fields, before["spec"].fields, member)
    && forall k :: k in before && k != "spec" && k != "status" ==> fields[k] == before[k]
  }

  /** Only one annotation is gone. */
  predicate Unannotated(annotations: map<string, string>, before: map<string, string>, key: string) {
    && annotations.Keys == before.Keys - {key}
    && forall k :: k in annotations ==> annotations[k] == before[k]
  }

  /** What the archived object a becomes when it is restored from directory d. */
  predicate Recreated(d: Dir, item: Item, a: Item) {
    && SameHead(item, a)
    && match d
       case PvDir => item.annotations == a.annotations && Released(item.fields, a.fields, "claimRef")
       case PvcDir =>
         && Unannotated(item.annotations, a.annotations, "pv.kubernetes.io/bind-completed")
         && Released(item.fields, a.fields, "volumeName")
       case _ => item.annotations == a.annotations && item.fields == a.fields
  }

  /** The item is what restoring the archived object creates. */
  predicate RecreatedAs(spec: PreferenceSpec, t: Table, item: Item, a: Item) {
    Recreated(Prefered(spec, EntryPath(t, a)), item, a)
  }

  lemma PlainContent(d: Dir, a: Item)
    requires d != PvDir && d != PvcDir
    ensures Recreated(d, StripServerFields(a), a)
  {}

  lemma VolumeContent(a: Item)
    requires GetMap(a.fields, "spec").Some?
    ensures Recreated(PvDir, FreedVolume(a, GetMap(a.fields, "spec").value), a)
  {}

  lemma ClaimContent(a: Item)
    requires GetMap(a.fields, "spec").Some?
    ensures Recreated(PvcDir, FreedClaim(a, GetMap(a.fields, "spec").value), a)
  {}

  lemma RecreatedIsSame(d: Dir, item: Item, a: Item)
    requires Recreated(d, item, a)
    ensures SameObject(item, a)
  {}
}

/** Kubernetes objects as the program sees them: JSON trees with the usual metadata. */
module Objects {
  import opened Text

  datatype Result<+T> = Ok(value: T) | Err(message: string)

  datatype Json =
    | Null
    | Str(text: string)
    | Arr(elems: seq<Json>)
    | Obj(fields: map<string, Json>)
    | Scalar(number: int)

  datatype Owner = Owner(kind: string, name: string)

  /** An unstructured object. `fields` holds the top-level members other than apiVersion, kind
      and metadata. */
  datatype Item = Item(
    apiVersion: string,
    kind: string,
    namespace: string,
    name: string,
    resourceVersion: string,
    uid: string,
    owners: seq<Owner>,
    annotations: map<string, string>,
    fields: map<string, Json>)

  /** getUnstructuredMap: absent and wrongly typed members read as nil. */
  function GetMap(fields: map<string, Json>, name: string): Option<map<string, Json>> {
    if name in fields && fields[name].Obj? then Some(fields[name].fields) else None
  }

  /** getUnstructuredSlice. */
  function GetSlice(fields: map<string, Json>, name: string): Option<seq<Json>> {
    if name in fields && fields[name].Arr? then Some(fields[name].elems) else None
  }

  /** getUnstructuredString. */
  function GetString(fields: map<string, Json>, name: string): string {
    if name in fields && fields[name].Str? then fields[name].text else ""
  }

  datatype GroupVersion = GroupVersion(group: string, version: string)
  datatype GVK = GVK(gv: GroupVersion, kind: string)
  datatype GVR = GVR(gv: GroupVersion, resource: string)

  /** schema.ParseGroupVersion: at most one slash. */
  function ParseGroupVersion(s: string): Option<GroupVersion> {
    if s == "" || s == "/" then Some(GroupVersion("", ""))
    else
      var parts := Split(s, '/');
      if |parts| == 1 then Some(GroupVersion("", s))
      else if |parts| == 2 then Some(GroupVersion(parts[0], parts[1]))
      else None
  }
}

/** JSON merge patch, section 2 of RFC 7396, and the one patch a primer sends. */
module MergePatch {
  import opened Prelude

  datatype Json = Null | Text(s: string) | Number(n: int) | List(items: seq<Json>) | Object(fields: map<string, Json>)

  function Merge(target: Json, patch: Json): Json
    decreases patch
  {
    if !patch.Object? then patch
    else
      var have := if target.Object? then target.fields else map[];
      Object(map name | name in have.Keys + patch.fields.Keys && (name in patch.fields ==> !patch.fields[name].Null?)
               :: if name in patch.fields then
                    Merge(if name in have then have[name] else Null, patch.fields[name])
                  else have[name])
  }

  /** The members of a document; a non-object counts as an empty one. */
  function Members(j: Json): map<string, Json> {
    if j.Object? then j.fields else map[]
  }

  /** One level of the merge. */
  lemma MergeMember(target: Json, patch: map<string, Json>, name: string)
    ensures Merge(target, Object(patch)).Object?
    ensures var after := Merge(target, Object(patch)).fields;
            if name !in patch then
              && (name in after <==> name in Members(target))
              && (name in after ==> after[name] == Members(target)[name])
            else if patch[name].Null? then name !in after
            else
              && name in after
              && after[name] == Merge(if name in Members(target) then Members(target)[name] else Null, patch[name])
  {
  }

  /** The value at a path of object members, if there is one. */
  function ValueAt(j: Json, path: seq<string>): Option<Json>
    decreases |path|
  {
    if path == [] then Some(j)
    else if j.Object? && path[0] in j.fields then ValueAt(j.fields[path[0]], path[1..])
    else None
  }

  /** The body of PublishArchiveKey. */
  function KeyBody(key: string): Json {
    Object(map["status" := Object(map["archiveKey" := Text(key)])])
  }

  /** Paths that neither lead to nor through `status.archiveKey`. */
  predicate Elsewhere(path: seq<string>) {
    |path| > 0 && (path[0] == "status" ==> |path| > 1 && path[1] != "archiveKey")
  }

  /** Whatever the stored document is, the patch sets the key and changes the value at no other path; in
    * particular it leaves phase, readyPeers and lastError alone. */
  lemma KeyPatchChangesOnlyTheKey(doc: Json, key: string, path: seq<string>)
    ensures ValueAt(Merge(doc, KeyBody(key)), ["status", "archiveKey"]) == Some(Text(key))
    ensures Elsewhere(path) ==>
              ValueAt(Merge(doc, KeyBody(key)), path) == ValueAt(doc, path)
  {
    var body := KeyBody(key);
    var after := Merge(doc, body);
    var was := if doc.Object? && "status" in doc.fields then doc.fields["status"] else Null;
    MergeMember(doc, body.fields, "status");
    MergeMember(was, body.fields["status"].fields, "archiveKey");
    assert after.fields["status"].fields["archiveKey"] == Text(key);
    assert ["status", "archiveKey"][1..] == ["archiveKey"];
    assert ValueAt(after, ["status", "archiveKey"]) == ValueAt(after.fields["status"], ["archiveKey"]);
    assert ["archiveKey"][1..] == [];
    if Elsewhere(path) {
      if path[0] == "status" {
        var rest := path[1..];
        assert rest[0] == path[1];
        assert ValueAt(after, path) == ValueAt(after.fields["status"], rest);
        assert ValueAt(doc, path) == if doc.Object? && "status" in doc.fields then ValueAt(was, rest) else None;
        MergeMember(was, body.fields["status"].fields, rest[0]);
      } else {
        MergeMember(doc, body.fields, path[0]);
        assert path[0] in after.fields <==> doc.Object? && path[0] in doc.fields;
      }
    }
  }

  // ---------------------------------------------------------------- the status as stored

  /** The conditions are documents of Kubernetes' own, which nothing here looks into. */
  datatype Status = Status(key: string, phase: string, readyPeers: int, lastError: string, conditions: seq<Json>)

  /** Empty fields are omitted when the status is serialized. */
  function StatusJson(st: Status): (j: Json)
    ensures j.Object?
  {
    Object(
      (if st.key == "" then map[] else map["archiveKey" := Text(st.key)])
      + (if st.phase == "" then map[] else map["phase" := Text(st.phase)])
      + (if st.readyPeers == 0 then map[] else map["readyPeers" := Number(st.readyPeers)])
      + (if st.lastError == "" then map[] else map["lastError" := Text(st.lastError)])
      + (if st.conditions == [] then map[] else map["conditions" := List(st.conditions)]))
  }

  /** One member of a serialized status. */
  function StatusMember(st: Status, name: string): Option<Json> {
    if name == "archiveKey" && st.key != "" then Some(Text(st.key))
    else if name == "phase" && st.phase != "" then Some(Text(st.phase))
    else if name == "readyPeers" && st.readyPeers != 0 then Some(Number(st.readyPeers))
    else if name == "lastError" && st.lastError != "" then Some(Text(st.lastError))
    else if name == "conditions" && st.conditions != [] then Some(List(st.conditions))
    else None
  }

  lemma StatusMembers(st: Status, name: string)
    ensures var fields := StatusJson(st).fields;
            StatusMember(st, name) == if name in fields then Some(fields[name]) else None
  {
  }

  lemma KeyPatchOfStatus(st: Status, key: string)
    requires key != ""
    ensures Merge(StatusJson(st), Object(map["archiveKey" := Text(key)])) == StatusJson(st.(key := key))
  {
    var patch := map["archiveKey" := Text(key)];
    var before, after := StatusJson(st), StatusJson(st.(key := key));
    var merged := Merge(before, Object(patch));
    hide StatusJson, Merge;
    MergeMember(before, patch, "archiveKey");
    forall name
      ensures name in merged.fields <==> name in after.fields
      ensures name in merged.fields ==> merged.fields[name] == after.fields[name]
    {
      MergeMember(before, patch, name);
      StatusMembers(st, name);
      StatusMembers(st.(key := key), name);
      if name == "archiveKey" {
        MergeOfText(if name in before.fields then before.fields[name] else Null, key);
      }
    }
    assert merged.fields == after.fields;
  }

  lemma MergeOfText(target: Json, text: string)
    ensures Merge(target, Text(text)) == Text(text)
  {
  }

  /** On a serialized object the merge is the update of the one field. */
  lemma KeyPatchIsAFieldUpdate(fields: map<string, Json>, st: Status, key: string)
    requires key != ""
    requires "status" in fields && fields["status"] == StatusJson(st)
    ensures Merge(Object(fields), KeyBody(key)) == Object(fields["status" := StatusJson(st.(key := key))])
  {
    var body := KeyBody(key);
    var after := Merge(Object(fields), body);
    assert body.fields["status"] == Object(map["archiveKey" := Text(key)]);
    KeyPatchOfStatus(st, key);
    hide StatusJson, Merge;
    forall name
      ensures name in after.fields <==> name in fields
      ensures name in after.fields && name != "status" ==> after.fields[name] == fields[name]
    {
      MergeMember(Object(fields), body.fields, name);
    }
    MergeMember(Object(fields), body.fields, "status");
    assert after.fields == fields["status" := StatusJson(st.(key := key))];
  }

  /** Serialization loses nothing. */
  lemma StatusJsonIsInjective(a: Status, b: Status)
    requires StatusJson(a) == StatusJson(b)
    ensures a == b
  {
    hide StatusJson;
    forall name
      ensures StatusMember(a, name) == StatusMember(b, name)
    {
      StatusMembers(a, name);
      StatusMembers(b, name);
    }
    assert StatusMember(a, "archiveKey") == StatusMember(b, "archiveKey");
    assert StatusMember(a, "phase") == StatusMember(b, "phase");
    assert StatusMember(a, "readyPeers") == StatusMember(b, "readyPeers");
    assert StatusMember(a, "lastError") == StatusMember(b, "lastError");
    assert StatusMember(a, "conditions") == StatusMember(b, "conditions");
  }
}

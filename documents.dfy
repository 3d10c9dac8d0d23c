/**
 The parsed document and the two semantic rules main.py applies to it. The
 parsers themselves (`yaml.safe_load`, `json.loads`) are not modelled: the
 tree they return is an input of the analysis.
 */
module Documents {
  import opened Wrappers

  /** What `yaml.safe_load` and `json.loads` return. `Other` stands for any
      remaining scalar (a float, a timestamp, binary data), which no rule
      inspects and which never equals a string or a boolean. A mapping keeps
      its entries in document order. */
  datatype Tree =
    | Null
    | Bool(b: bool)
    | Int(i: int)
    | Str(s: string)
    | Other(text: string)
    | Sequence(items: seq<Tree>)
    | Mapping(entries: seq<(Tree, Tree)>)

  /** No key occurs twice, as in every dict the parsers build. */
  predicate UniqueKeys(entries: seq<(Tree, Tree)>)
  {
    forall i, j :: 0 <= i < j < |entries| ==> entries[i].0 != entries[j].0
  }

  /** Python's `key in d` followed by `d[key]`, for a str key: the value of
      the entry whose key is that string, if there is one. */
  function Lookup(entries: seq<(Tree, Tree)>, key: string): (r: Option<Tree>)
    ensures r.None? <==> forall i :: 0 <= i < |entries| ==> entries[i].0 != Str(key)
    ensures r.Some? ==> exists i :: 0 <= i < |entries| && entries[i] == (Str(key), r.value)
    decreases |entries|
  {
    if entries == [] then None
    else if entries[0].0 == Str(key) then Some(entries[0].1)
    else
      var r := Lookup(entries[1..], key);
      assert forall i :: 1 <= i < |entries| ==> entries[i] == entries[1..][i - 1];
      r
  }

  /** In a mapping without repeated keys, the lookup finds `v` exactly when
      `(key, v)` is one of the entries. */
  lemma LookupFindsEntry(entries: seq<(Tree, Tree)>, key: string, v: Tree)
    requires UniqueKeys(entries)
    ensures Lookup(entries, key) == Some(v) <==> (Str(key), v) in entries
  {
    if (Str(key), v) in entries {
      var i :| 0 <= i < |entries| && entries[i] == (Str(key), v);
      var r := Lookup(entries, key);
      var j :| 0 <= j < |entries| && entries[j] == (Str(key), r.value);
      assert i == j;
    }
  }

  /** main.py:104-105: the top level is a dict whose "api_version" value
      equals the string "v1". */
  predicate ApiVersionIsV1(doc: Tree)
  {
    doc.Mapping? && Lookup(doc.entries, "api_version") == Some(Str("v1"))
  }

  /** main.py:126: the top level is a dict whose "debug" value `is True`. */
  predicate DebugIsTrue(doc: Tree)
  {
    doc.Mapping? && Lookup(doc.entries, "debug") == Some(Bool(true))
  }

  /** The YAML rule fires exactly on a mapping that has the entry
      `api_version: v1`; a scalar or sequence document, or a mapping without
      that key, never fires. */
  lemma ApiVersionRule(doc: Tree)
    requires doc.Mapping? ==> UniqueKeys(doc.entries)
    ensures ApiVersionIsV1(doc) <==> doc.Mapping? && (Str("api_version"), Str("v1")) in doc.entries
  {
    if doc.Mapping? {
      LookupFindsEntry(doc.entries, "api_version", Str("v1"));
    }
  }

  /** The JSON rule fires exactly on a mapping that has the entry
      `"debug": true`. Identity with True admits nothing else: neither the
      integer 1, nor the string "true", nor false. */
  lemma DebugRule(doc: Tree)
    requires doc.Mapping? ==> UniqueKeys(doc.entries)
    ensures DebugIsTrue(doc) <==> doc.Mapping? && (Str("debug"), Bool(true)) in doc.entries
    ensures doc.Mapping? && (Str("debug"), Int(1)) in doc.entries ==> !DebugIsTrue(doc)
    ensures doc.Mapping? && (Str("debug"), Str("true")) in doc.entries ==> !DebugIsTrue(doc)
    ensures doc.Mapping? && (Str("debug"), Bool(false)) in doc.entries ==> !DebugIsTrue(doc)
  {
    if doc.Mapping? {
      LookupFindsEntry(doc.entries, "debug", Bool(true));
      LookupFindsEntry(doc.entries, "debug", Int(1));
      LookupFindsEntry(doc.entries, "debug", Str("true"));
      LookupFindsEntry(doc.entries, "debug", Bool(false));
    }
  }
}

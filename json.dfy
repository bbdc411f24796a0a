/** JSON values as Python holds them after `json.loads` (dicts keep their
    insertion order), the dict operations the core uses, Python truthiness,
    and the host library as a parameter. */
module JsonModel {
  import opened Wrappers

  /** A decoded JSON value. Objects are key/value pairs in insertion order. */
  datatype Json =
    | Null
    | Bool(b: bool)
    | Int(n: int)
    | Str(s: string)
    | Arr(items: seq<Json>)
    | Obj(fields: seq<(string, Json)>)

  /** No key occurs twice, as in every Python dict. */
  predicate DistinctKeys(fields: seq<(string, Json)>) {
    forall i, j :: 0 <= i < j < |fields| ==> fields[i].0 != fields[j].0
  }

  /** A value that a Python program can hold: every object has distinct keys. */
  ghost predicate WellFormed(j: Json) {
    match j
    case Arr(items) => forall i :: 0 <= i < |items| ==> WellFormed(items[i])
    case Obj(fields) =>
      DistinctKeys(fields) && forall i :: 0 <= i < |fields| ==> WellFormed(fields[i].1)
    case _ => true
  }

  /** `d.get(key)`: the value stored under key, if any. */
  function Lookup(fields: seq<(string, Json)>, key: string): Option<Json> {
    if fields == [] then None
    else if fields[0].0 == key then Some(fields[0].1)
    else Lookup(fields[1..], key)
  }

  /** A key that looks something up names an entry, and that entry's value
      is what is found. */
  lemma {:induction false} LookupEntry(fields: seq<(string, Json)>, key: string) returns (i: nat)
    requires Lookup(fields, key).Some?
    ensures i < |fields| && fields[i] == (key, Lookup(fields, key).value)
  {
    if fields[0].0 == key {
      i := 0;
    } else {
      var k := LookupEntry(fields[1..], key);
      i := k + 1;
    }
  }

  /** The key of any entry looks something up. */
  lemma {:induction false} LookupHas(fields: seq<(string, Json)>, i: nat)
    requires i < |fields|
    ensures Lookup(fields, fields[i].0).Some?
  {
    if i > 0 && fields[0].0 != fields[i].0 {
      assert fields[1..][i - 1] == fields[i];
      LookupHas(fields[1..], i - 1);
    }
  }

  /** A key that names no entry looks nothing up. */
  lemma {:induction false} LookupAbsent(fields: seq<(string, Json)>, key: string)
    requires forall i :: 0 <= i < |fields| ==> fields[i].0 != key
    ensures Lookup(fields, key).None?
  {
    if fields != [] {
      LookupAbsent(fields[1..], key);
    }
  }

  /** `d.get(key, default)`. */
  function GetOr(fields: seq<(string, Json)>, key: string, default: Json): Json {
    Lookup(fields, key).GetOr(default)
  }

  /** An entry of a well-formed object is well-formed. */
  lemma LookupWellFormed(fields: seq<(string, Json)>, key: string)
    requires WellFormed(Obj(fields))
    ensures Lookup(fields, key).Some? ==> WellFormed(Lookup(fields, key).value)
  {
    if Lookup(fields, key).Some? {
      var i := LookupEntry(fields, key);
    }
  }

  /** An entry whose key does not occur earlier is what that key looks up. */
  lemma {:induction false} LookupFound(fields: seq<(string, Json)>, i: nat)
    requires i < |fields|
    requires forall j :: 0 <= j < i ==> fields[j].0 != fields[i].0
    ensures Lookup(fields, fields[i].0) == Some(fields[i].1)
  {
    if i > 0 {
      assert fields[1..][i - 1] == fields[i];
      LookupFound(fields[1..], i - 1);
    }
  }

  /** In an object with distinct keys, each entry is what its key looks up. */
  lemma LookupDistinct(fields: seq<(string, Json)>, i: nat)
    requires DistinctKeys(fields) && i < |fields|
    ensures Lookup(fields, fields[i].0) == Some(fields[i].1)
  {
    LookupFound(fields, i);
  }

  /** Looking up in a non-empty object checks its first entry, then the rest. */
  lemma LookupCons(x: (string, Json), rest: seq<(string, Json)>, k: string)
    ensures Lookup([x] + rest, k) == if x.0 == k then Some(x.1) else Lookup(rest, k)
  {
    assert ([x] + rest)[0] == x && ([x] + rest)[1..] == rest;
  }

  /** `d[key] = v`: an existing key keeps its place, a new key goes last. */
  function Put(fields: seq<(string, Json)>, key: string, v: Json): (r: seq<(string, Json)>)
    ensures Lookup(r, key) == Some(v)
    ensures forall k :: k != key ==> Lookup(r, k) == Lookup(fields, k)
    ensures DistinctKeys(fields) ==> DistinctKeys(r)
    ensures Lookup(fields, key).Some? ==> |r| == |fields| && forall i :: 0 <= i < |fields| ==> r[i].0 == fields[i].0
    ensures Lookup(fields, key).None? ==> r == fields + [(key, v)]
  {
    if fields == [] then [(key, v)]
    else if fields[0].0 == key then
      var r := [(key, v)] + fields[1..];
      assert fields == [fields[0]] + fields[1..];
      assert forall k :: Lookup(r, k) == if k == key then Some(v) else Lookup(fields[1..], k) by {
        forall k { LookupCons((key, v), fields[1..], k); }
      }
      assert forall k :: k != key ==> Lookup(fields, k) == Lookup(fields[1..], k) by {
        forall k { LookupCons(fields[0], fields[1..], k); }
      }
      assert DistinctKeys(fields) ==> DistinctKeys(r) by {
        assert forall i :: 0 < i < |r| ==> r[i] == fields[i];
      }
      r
    else
      var rest := Put(fields[1..], key, v);
      var r := [fields[0]] + rest;
      assert fields == [fields[0]] + fields[1..];
      assert forall k :: Lookup(r, k) == if fields[0].0 == k then Some(fields[0].1) else Lookup(rest, k) by {
        forall k { LookupCons(fields[0], rest, k); }
      }
      assert forall k :: Lookup(fields, k) == if fields[0].0 == k then Some(fields[0].1) else Lookup(fields[1..], k) by {
        forall k { LookupCons(fields[0], fields[1..], k); }
      }
      assert DistinctKeys(fields) ==> DistinctKeys(r) by {
        if DistinctKeys(fields) {
          assert DistinctKeys(fields[1..]);
          LookupAbsent(fields[1..], fields[0].0);
          assert Lookup(rest, fields[0].0).None?;
          forall i | 0 <= i < |rest| ensures rest[i].0 != fields[0].0 {
            if rest[i].0 == fields[0].0 {
              LookupHas(rest, i);
            }
          }
        }
      }
      r
  }

  /** Storing the value a key already holds changes nothing. */
  lemma {:induction false} PutSame(fields: seq<(string, Json)>, key: string, v: Json)
    requires Lookup(fields, key) == Some(v)
    ensures Put(fields, key, v) == fields
  {
    if fields[0].0 != key {
      PutSame(fields[1..], key, v);
    }
  }

  /** Python truthiness: None, False, 0, "", [] and {} are false. */
  predicate Truthy(j: Json) {
    match j
    case Null => false
    case Bool(b) => b
    case Int(n) => n != 0
    case Str(s) => s != ""
    case Arr(items) => items != []
    case Obj(fields) => fields != []
  }

  /** The host library the core calls into: `json.dumps`, `json.loads` (None
      when it raises) and `repr` of a list or dict (what `str` prints for
      them). Their bodies are not part of this model. */
  datatype Host = Host(
    dumps: Json -> string,
    loads: string -> Option<Json>,
    repr: Json -> string)

  /** What the model assumes of the host's JSON library: decoding an encoded
      value gives it back, decoding yields values Python can hold, and the
      two literal defaults of the read side decode to an empty dict and list. */
  ghost predicate Lawful(h: Host) {
    && (forall j :: WellFormed(j) ==> h.loads(h.dumps(j)) == Some(j))
    && (forall s :: h.loads(s).Some? ==> WellFormed(h.loads(s).value))
    && h.loads("{}") == Some(Obj([]))
    && h.loads("[]") == Some(Arr([]))
  }
}

/** JSON trees as `json.loads` returns them, and comment stripping. */
module Json {
  import opened Prelude

  // Floating-point numbers are not part of this model.
  datatype Json =
    | Null
    | Bool(b: bool)
    | Num(n: int)
    | Str(s: string)
    | Arr(items: seq<Json>)
    | Obj(fields: map<string, Json>)

  datatype PathStep = Key(key: string) | Index(i: nat)

  /** The subtree reached by following `path`, if there is one. */
  function At(j: Json, path: seq<PathStep>): Option<Json> {
    if path == [] then Some(j)
    else
      match (j, path[0])
      case (Obj(f), Key(k)) => if k in f then At(f[k], path[1..]) else None
      case (Arr(a), Index(i)) => if i < |a| then At(a[i], path[1..]) else None
      case _ => None
  }

  // ----- comments ---------------------------------------------------------

  predicate Hidden(k: string) {
    |k| > 0 && k[0] == '_'
  }

  function StripComments(j: Json): Json {
    match j
    case Arr(items) => Arr(seq(|items|, i requires 0 <= i < |items| => StripComments(items[i])))
    case Obj(f) => Obj(map k | k in f && !Hidden(k) :: StripComments(f[k]))
    case _ => j
  }

  /** No key of `j`, at any depth, begins with an underscore. */
  predicate Clean(j: Json) {
    match j
    case Arr(items) => forall i | 0 <= i < |items| :: Clean(items[i])
    case Obj(f) => forall k | k in f :: !Hidden(k) && Clean(f[k])
    case _ => true
  }

  lemma {:induction false} StripIsClean(j: Json)
    ensures Clean(StripComments(j))
  {
    match j
    case Arr(items) =>
      forall i | 0 <= i < |items| ensures Clean(StripComments(items[i])) { StripIsClean(items[i]); }
    case Obj(f) =>
      forall k | k in f ensures Clean(StripComments(f[k])) { StripIsClean(f[k]); }
    case _ =>
  }

  /** Stripping removes exactly what lies below a hidden key and nothing else. */
  lemma {:induction false} StripKeepsExactly(j: Json, path: seq<PathStep>)
    ensures At(StripComments(j), path) ==
            if exists i :: 0 <= i < |path| && path[i].Key? && Hidden(path[i].key) then None
            else match At(j, path)
                 case Some(v) => Some(StripComments(v))
                 case None => None
    decreases |path|
  {
    if path != [] {
      var rest := path[1..];
      assert forall i | 0 <= i < |rest| :: rest[i] == path[i + 1];
      assert forall i | 1 <= i < |path| :: path[i] == rest[i - 1];
      match (j, path[0])
      case (Obj(f), Key(k)) => if k in f { StripKeepsExactly(f[k], rest); }
      case (Arr(a), Index(i)) => if i < |a| { StripKeepsExactly(a[i], rest); }
      case _ =>
    }
  }
}

/** What the notification and policy list pages have in common. */
module ListPages {
  import opened Wrappers
  import opened Http
  import opened Seqs

  /** `prev.filter(x => x._id !== id)`: the list after a successful delete. */
  function WithoutId<T>(xs: seq<T>, idOf: T -> string, id: string): (r: seq<T>)
    ensures forall i :: 0 <= i < |r| ==> r[i] in xs && idOf(r[i]) != id
    ensures forall i :: 0 <= i < |xs| && idOf(xs[i]) != id ==> xs[i] in r
    ensures |r| == |xs| <==> forall i :: 0 <= i < |xs| ==> idOf(xs[i]) != id
  {
    Filter(xs, x => idOf(x) != id)
  }

  /** Deleting from a concatenation deletes from each part: the survivors keep their order. */
  lemma WithoutIdAppend<T>(a: seq<T>, b: seq<T>, idOf: T -> string, id: string)
    ensures WithoutId(a + b, idOf, id) == WithoutId(a, idOf, id) + WithoutId(b, idOf, id)
  {
    FilterAppend(a, b, x => idOf(x) != id);
  }

  /** A single item is dropped exactly when it carries the id. */
  lemma WithoutIdSingle<T>(x: T, idOf: T -> string, id: string)
    ensures WithoutId([x], idOf, id) == if idOf(x) == id then [] else [x]
  {
    assert [x][1..] == [];
  }

  /** Deleting the same id again changes nothing. */
  lemma WithoutIdIdempotent<T>(xs: seq<T>, idOf: T -> string, id: string)
    ensures WithoutId(WithoutId(xs, idOf, id), idOf, id) == WithoutId(xs, idOf, id)
  {
    FilterIdempotent(xs, x => idOf(x) != id);
  }

  /** Deleting two items gives the same list in either order. */
  lemma {:induction false} WithoutIdCommutes<T>(xs: seq<T>, idOf: T -> string, a: string, b: string)
    ensures WithoutId(WithoutId(xs, idOf, a), idOf, b) == WithoutId(WithoutId(xs, idOf, b), idOf, a)
  {
    if |xs| > 0 {
      WithoutIdCommutes(xs[1..], idOf, a, b);
    }
  }

  /** Which request saving the form sends: `PUT <base>/<id>` while editing, `POST <base>` otherwise. */
  function SaveEndpoint(base: string, editingId: Option<string>): (e: Endpoint)
    ensures e.verb == Put <==> editingId.Some?
    ensures e.verb == Post <==> editingId.None?
    ensures editingId.Some? ==> e.path == base + "/" + editingId.value
    ensures editingId.None? ==> e.path == base
  {
    match editingId
    case Some(id) => Endpoint(Put, base + "/" + id)
    case None => Endpoint(Post, base)
  }

  function DeleteEndpoint(base: string, id: string): (e: Endpoint)
    ensures e.verb == Delete && e.path == base + "/" + id
  {
    Endpoint(Delete, base + "/" + id)
  }

  /** Saving an edited item and deleting it address the same path, with different verbs. */
  lemma SaveAndDeleteShareThePath(base: string, id: string)
    ensures SaveEndpoint(base, Some(id)).path == DeleteEndpoint(base, id).path
    ensures SaveEndpoint(base, Some(id)).verb == Put && DeleteEndpoint(base, id).verb == Delete
  {
  }
}

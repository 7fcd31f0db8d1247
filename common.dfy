// Shared vocabulary: optional values, results with an error, document ids,
// and the lookup of a document by its _id.

module Common {

  datatype Option<+T> = None | Some(value: T)

  datatype Result<+T, +E> = Success(value: T) | Failure(error: E)

  type Id = string

  /** findById over a collection whose documents carry their _id under key:
      the first document with that _id, if any. */
  function FindBy<T>(docs: seq<T>, key: T -> Id, id: Id): (r: Option<T>)
    ensures r.Some? ==> r.value in docs && key(r.value) == id
    ensures r.None? <==> forall i :: 0 <= i < |docs| ==> key(docs[i]) != id
  {
    if docs == [] then None
    else if key(docs[0]) == id then Some(docs[0])
    else FindBy(docs[1..], key, id)
  }
}

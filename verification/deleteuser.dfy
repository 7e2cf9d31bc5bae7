/**
 * User deletion (`middleware/users/deleteuserbyid.go`): a delete by id sent
 * straight to the store, with no lookup first; the store's status is mapped to
 * the response.
 */
module DeleteUser {
  import opened Wrappers
  import opened Records
  import opened Http
  import opened UserStore

  /** The success body; `result` is the store's own `"deleted"`. */
  const Deleted: Reply := Json(200, map["message" := Str("User has been deleted successfully"), "result" := Str("deleted")])

  method DeleteUserid(store: Store, id: string, link: Link) returns (r: Reply)
    requires store.Valid()
    modifies store
    ensures store.Valid()
    ensures link == Down ==> r == Error(500, "Failed to execute delete")
    ensures link == Failing ==> r == Error(500, "Elasticsearch error")
    ensures link == Up && id !in old(store.docs) ==> r == Error(404, "User not found")
    ensures link == Up && id in old(store.docs) ==>
      && store.docs == old(store.docs) - {id} && store.order == Without(old(store.order), id)
      && r == Deleted
    ensures !(link == Up && id in old(store.docs)) ==> store.docs == old(store.docs) && store.order == old(store.order)
  {
    var w := store.Delete(id, link);
    match w
    case TransportError =>
      return Error(500, "Failed to execute delete");
    case ErrorStatus(code) =>
      if code == 404 {
        return Error(404, "User not found");
      }
      return Error(500, "Elasticsearch error");
    case Written =>
      return Deleted;
  }

  /** After a delete the id is unknown to `GetUserid` and every other user is untouched. */
  lemma DeletedUserGone(docs: map<string, Doc>, id: string)
    ensures GetUserid(docs - {id}, id, Up) == Success([])
    ensures forall other | other != id :: GetUserid(docs - {id}, other, Up) == GetUserid(docs, other, Up)
  {
  }

  /** Deleting keeps the index order a duplicate-free listing of the remaining ids. */
  lemma DeleteKeepsIndex(docs: map<string, Doc>, order: seq<string>, id: string)
    requires IndexValid(docs, order)
    ensures IndexValid(docs - {id}, Without(order, id))
  {
  }
}

/**
 * The `users` index as an in-memory table: documents by id, plus the order in
 * which they were indexed (searches list their hits in that order). Store calls
 * can fail in two ways the handlers tell apart: the transport fails (`Down`), or
 * the store answers with an error status (`Failing`).
 */
module UserStore {
  import opened Wrappers
  import opened Records
  import opened Http

  datatype Link = Up | Down | Failing

  predicate Distinct(s: seq<string>) {
    forall i, j | 0 <= i < j < |s| :: s[i] != s[j]
  }

  /** The table invariant: the order lists every document id exactly once. */
  ghost predicate IndexValid(docs: map<string, Doc>, order: seq<string>) {
    Distinct(order) && forall id :: id in docs <==> id in order
  }

  /** Every stored document decodes as a `dto.Users`. */
  ghost predicate AllWellTyped(docs: map<string, Doc>) {
    forall id | id in docs :: WellTyped(docs[id])
  }

  /** `s` with every occurrence of `x` removed. */
  function Without(s: seq<string>, x: string): (r: seq<string>)
    ensures forall y :: y in r <==> y in s && y != x
    ensures Distinct(s) ==> Distinct(r)
  {
    if s == [] then []
    else
      var init, last := s[..|s| - 1], s[|s| - 1];
      var rest := Without(init, x);
      assert forall y :: y in s <==> y in init || y == last;
      assert Distinct(s) ==> Distinct(init) && last !in init;
      if last == x then rest else rest + [last]
  }

  predicate Holds(d: Doc, f: Field, v: string) {
    f in d && d[f] == Str(v)
  }

  /** The ids, in index order, of the documents whose field `f` is exactly `v` (a term query). */
  function MatchIds(docs: map<string, Doc>, order: seq<string>, f: Field, v: string): (ids: seq<string>)
    ensures forall id :: id in ids <==> id in order && id in docs && Holds(docs[id], f, v)
    ensures (forall id | id in order && id in docs :: !Holds(docs[id], f, v)) ==> ids == []
  {
    if order == [] then []
    else
      var rest := MatchIds(docs, order[..|order| - 1], f, v);
      var last := order[|order| - 1];
      assert forall id :: id in order <==> id in order[..|order| - 1] || id == last;
      if last in docs && Holds(docs[last], f, v) then rest + [last] else rest
  }

  /** The hits a query returns for the given ids. */
  function HitsOf(docs: map<string, Doc>, ids: seq<string>): (hits: seq<Hit>)
    requires forall id | id in ids :: id in docs
    ensures |hits| == |ids|
    ensures forall k | 0 <= k < |ids| :: hits[k] == Hit(ids[k], docs[ids[k]])
  {
    seq(|ids|, k requires 0 <= k < |ids| => Hit(ids[k], docs[ids[k]]))
  }

  /** A term query's answer only depends on the documents the order lists. */
  lemma {:induction false} MatchIdsFrame(docs: map<string, Doc>, docs': map<string, Doc>, order: seq<string>, f: Field, v: string)
    requires forall id | id in order :: (id in docs <==> id in docs') && (id in docs ==> (Holds(docs[id], f, v) <==> Holds(docs'[id], f, v)))
    ensures MatchIds(docs, order, f, v) == MatchIds(docs', order, f, v)
  {
    if order != [] {
      MatchIdsFrame(docs, docs', order[..|order| - 1], f, v);
    }
  }

  /** Indexing a document under a fresh id, when no other document matches, makes it the only match. */
  lemma {:induction false} MatchIdsAppendFresh(docs: map<string, Doc>, order: seq<string>, f: Field, v: string,
                                              newId: string, d: Doc)
    requires IndexValid(docs, order) && newId !in docs
    requires forall id | id in docs :: !Holds(docs[id], f, v)
    requires Holds(d, f, v)
    ensures MatchIds(docs[newId := d], order + [newId], f, v) == [newId]
  {
    var docs' := docs[newId := d];
    var order' := order + [newId];
    assert order'[..|order|] == order;
    MatchIdsFrame(docs, docs', order, f, v);
  }

  /** `GetUserid` (an ids query): the user with that id, none, or an error. */
  function GetUserid(docs: map<string, Doc>, id: string, link: Link): (r: Result<seq<User>, string>)
    ensures r.Success? <==> link == Up && (id in docs ==> WellTyped(docs[id]))
    ensures r.Success? ==> |r.value| <= 1 && (|r.value| == 1 <==> id in docs)
    ensures r.Success? && id in docs ==> Some(r.value[0]) == DecodeUser(id, docs[id])
  {
    match link
    case Down => Failure("search request failed")
    case Failing => Failure("error response from ES")
    case Up =>
      if id !in docs then Success([])
      else
        match DecodeUser(id, docs[id])
        case None => Failure("json: cannot unmarshal the user document")
        case Some(u) => Success([u])
  }

  /** The users decoded from `hits` as `models.User`, skipping the hits that fail to decode. */
  function Decoded(hits: seq<Hit>): seq<User> {
    if hits == [] then []
    else
      var rest := Decoded(hits[..|hits| - 1]);
      match DecodeUser("", hits[|hits| - 1].source)
      case Some(u) => rest + [u]
      case None => rest
  }

  /** Nothing decodes exactly when no hit is well-typed. */
  lemma {:induction false} DecodedEmpty(hits: seq<Hit>)
    ensures |Decoded(hits)| == 0 <==> forall k | 0 <= k < |hits| :: !WellTyped(hits[k].source)
  {
    if hits != [] {
      var init := hits[..|hits| - 1];
      DecodedEmpty(init);
      assert forall k | 0 <= k < |init| :: init[k] == hits[k];
    }
  }

  /**
   * `SearchByEmail` / `SearchByUsername`: run the term query on `f` and decode each
   * hit, keeping the ones that decode; any store error is returned as an error.
   */
  method SearchBy(docs: map<string, Doc>, order: seq<string>, f: Field, v: string, link: Link)
    returns (r: Result<seq<User>, string>)
    ensures link != Up ==> r.Failure?
    ensures link == Up ==> r == Success(Decoded(HitsOf(docs, MatchIds(docs, order, f, v))))
  {
    if link == Down {
      return Failure("search request failed");
    }
    if link == Failing {
      return Failure("search error");
    }
    var hits := HitsOf(docs, MatchIds(docs, order, f, v));
    var users: seq<User> := [];
    var i := 0;
    while i < |hits|
      invariant 0 <= i <= |hits|
      invariant users == Decoded(hits[..i])
    {
      assert hits[..i + 1][..i] == hits[..i];
      var decoded := DecodeUser("", hits[i].source);
      if decoded.Some? {
        users := users + [decoded.value];
      }
      i := i + 1;
    }
    assert hits[..i] == hits;
    return Success(users);
  }

  /** On a well-typed table a term search finds something exactly when some document matches. */
  lemma SearchSeesAll(docs: map<string, Doc>, order: seq<string>, f: Field, v: string)
    requires IndexValid(docs, order) && AllWellTyped(docs)
    ensures |Decoded(HitsOf(docs, MatchIds(docs, order, f, v)))| > 0 <==> exists id | id in docs :: Holds(docs[id], f, v)
  {
    var ids := MatchIds(docs, order, f, v);
    var hits := HitsOf(docs, ids);
    DecodedEmpty(hits);
    if exists id | id in docs :: Holds(docs[id], f, v) {
      var id :| id in docs && Holds(docs[id], f, v);
      assert id in ids;
      var k :| 0 <= k < |ids| && ids[k] == id;
      assert WellTyped(hits[k].source);
    }
  }

  /** Outcome of a partial update or of a delete, as the store reports it. */
  datatype WriteStatus = Written | TransportError | ErrorStatus(code: int)

  /** How the update handlers answer a failed update: `Written` never reaches here. */
  function WriteFailure(w: WriteStatus): Reply {
    if w == TransportError then Message(500, "Error updating database")
    else Message(500, "Elasticsearch error")
  }

  class Store {
    var docs: map<string, Doc>
    var order: seq<string>

    ghost predicate Valid()
      reads this
    {
      IndexValid(docs, order)
    }

    constructor ()
      ensures Valid() && docs == map[] && order == []
    {
      docs, order := map[], [];
    }

    /** Indexes a new document under a fresh id chosen by the store. */
    method Insert(id: string, d: Doc)
      requires Valid() && id !in docs
      modifies this
      ensures Valid()
      ensures docs == old(docs)[id := d] && order == old(order) + [id]
    {
      docs := docs[id := d];
      order := order + [id];
    }

    /** A partial "doc" update; a missing document is a 404 from the store. */
    method Update(id: string, patch: Doc, link: Link) returns (w: WriteStatus)
      requires Valid()
      modifies this
      ensures Valid() && order == old(order)
      ensures w == Written <==> link == Up && id in old(docs)
      ensures w == TransportError <==> link == Down
      ensures w == Written ==> docs == old(docs)[id := Merge(old(docs)[id], patch)]
      ensures w != Written ==> docs == old(docs)
      ensures link == Up && id !in old(docs) ==> w == ErrorStatus(404)
      ensures link == Failing ==> w == ErrorStatus(500)
    {
      if link == Down {
        return TransportError;
      }
      if link == Failing {
        return ErrorStatus(500);
      }
      if id !in docs {
        return ErrorStatus(404);
      }
      docs := docs[id := Merge(docs[id], patch)];
      return Written;
    }

    /** A delete by id; a missing document is a 404 from the store. */
    method Delete(id: string, link: Link) returns (w: WriteStatus)
      requires Valid()
      modifies this
      ensures Valid()
      ensures w == Written <==> link == Up && id in old(docs)
      ensures w == TransportError <==> link == Down
      ensures w == Written ==> docs == old(docs) - {id} && order == Without(old(order), id)
      ensures w != Written ==> docs == old(docs) && order == old(order)
      ensures link == Up && id !in old(docs) ==> w == ErrorStatus(404)
      ensures link == Failing ==> w == ErrorStatus(500)
    {
      if link == Down {
        return TransportError;
      }
      if link == Failing {
        return ErrorStatus(500);
      }
      if id !in docs {
        return ErrorStatus(404);
      }
      docs := docs - {id};
      order := Without(order, id);
      return Written;
    }
  }
}

/**
 * The user record as the service stores it and reads it back.
 *
 * A stored user is a JSON document (the `_source` of the `users` index), here a
 * map from field to JSON scalar. Handlers read it by decoding it into the
 * `dto.Users` / `models.User` struct, which fails when a field holds a value of
 * the wrong JSON type, and they write it with partial "doc" updates that merge
 * the given fields into the stored document.
 */
module Records {
  import opened Wrappers

  /** A JSON scalar. Numbers are integers here (see README, "Left out"). */
  datatype Value = Str(s: string) | Bool(b: bool) | Num(n: int) | Null

  /** The JSON keys of `dto.Users` other than `id`, which every reader overwrites with the document id. */
  datatype Field =
    | Firstname | Lastname | Email | Mobile | Username | Password | Roles
    | Isactivated | Isblocked | Userpicture | Mailtoken | Qrcodeurl | Secret

  type Doc = map<Field, Value>

  /** A document as a search returns it: its id and its `_source`. */
  datatype Hit = Hit(id: string, source: Doc)

  /** The decoded `dto.Users` record; the pointer fields are options. */
  datatype User = User(
    id: string, firstname: string, lastname: string, email: string, mobile: string,
    username: string, password: string, roles: string, isactivated: bool, isblocked: bool,
    userpicture: string, mailtoken: int, qrcodeurl: Option<string>, secret: Option<string>)

  /** Whether `encoding/json` can store `v` in the struct field behind key `f`. */
  predicate TypeOk(f: Field, v: Value) {
    v.Null? ||
    match f
    case Isactivated | Isblocked => v.Bool?
    case Mailtoken => v.Num?
    case _ => v.Str?
  }

  predicate WellTyped(d: Doc) {
    forall f | f in d :: TypeOk(f, d[f])
  }

  /** The JSON value a decoded user's field is written back as. */
  function View(u: User, f: Field): Value {
    match f
    case Firstname => Str(u.firstname)
    case Lastname => Str(u.lastname)
    case Email => Str(u.email)
    case Mobile => Str(u.mobile)
    case Username => Str(u.username)
    case Password => Str(u.password)
    case Roles => Str(u.roles)
    case Isactivated => Bool(u.isactivated)
    case Isblocked => Bool(u.isblocked)
    case Userpicture => Str(u.userpicture)
    case Mailtoken => Num(u.mailtoken)
    case Qrcodeurl => if u.qrcodeurl.Some? then Str(u.qrcodeurl.value) else Null
    case Secret => if u.secret.Some? then Str(u.secret.value) else Null
  }

  /** The value a struct field keeps when its key is absent or null: Go's zero value. */
  function ZeroView(f: Field): Value {
    match f
    case Isactivated | Isblocked => Bool(false)
    case Mailtoken => Num(0)
    case Qrcodeurl | Secret => Null
    case _ => Str("")
  }

  function Text(d: Doc, f: Field): string {
    if f in d && d[f].Str? then d[f].s else ""
  }

  function Flag(d: Doc, f: Field): bool {
    f in d && d[f].Bool? && d[f].b
  }

  function Number(d: Doc, f: Field): int {
    if f in d && d[f].Num? then d[f].n else 0
  }

  function Ref(d: Doc, f: Field): Option<string> {
    if f in d && d[f].Str? then Some(d[f].s) else None
  }

  /**
   * `json.Unmarshal` of a `_source` into `dto.Users`, then `Id` set to the hit's id.
   * Decoding fails exactly when some field has the wrong JSON type.
   */
  function DecodeUser(id: string, d: Doc): (r: Option<User>)
    ensures r.Some? <==> WellTyped(d)
    ensures r.Some? ==> r.value.id == id
  {
    if !WellTyped(d) then None
    else Some(User(id, Text(d, Firstname), Text(d, Lastname), Text(d, Email), Text(d, Mobile),
                   Text(d, Username), Text(d, Password), Text(d, Roles),
                   Flag(d, Isactivated), Flag(d, Isblocked), Text(d, Userpicture),
                   Number(d, Mailtoken), Ref(d, Qrcodeurl), Ref(d, Secret)))
  }

  /** A decoded user holds every present, non-null field as stored and Go's zero value for every other field. */
  lemma DecodedFields(id: string, d: Doc)
    requires WellTyped(d)
    ensures forall f :: View(DecodeUser(id, d).value, f) == if f in d && !d[f].Null? then d[f] else ZeroView(f)
  {
    var u := DecodeUser(id, d).value;
    forall f ensures View(u, f) == if f in d && !d[f].Null? then d[f] else ZeroView(f) {
      if f in d {
        assert TypeOk(f, d[f]);
      }
      match f
      case Isactivated | Isblocked => {}
      case Mailtoken => {}
      case Qrcodeurl | Secret => {}
      case Firstname | Lastname | Email | Mobile | Username | Password | Roles | Userpicture => {}
    }
  }

  /** `json.Marshal` of a `models.User`: every field is written, pointers as null when nil. */
  function EncodeUser(u: User): (d: Doc)
    ensures WellTyped(d)
    ensures forall f :: f in d && d[f] == View(u, f)
  {
    AllFieldsListed();
    map f: Field | f in AllFields :: View(u, f)
  }

  lemma AllFieldsListed()
    ensures forall f: Field :: f in AllFields
  {
    forall f: Field ensures f in AllFields {
      match f
      case Firstname | Lastname | Email | Mobile | Username | Password | Roles => {}
      case Isactivated | Isblocked | Userpicture | Mailtoken | Qrcodeurl | Secret => {}
    }
  }

  const AllFields: set<Field> := {Firstname, Lastname, Email, Mobile, Username, Password, Roles,
                                  Isactivated, Isblocked, Userpicture, Mailtoken, Qrcodeurl, Secret}

  /** Reading back a written user gives the same user under the document id. */
  lemma {:induction false} DecodeEncode(id: string, u: User)
    ensures DecodeUser(id, EncodeUser(u)) == Some(u.(id := id))
  {
    DecodeViews(id, u, EncodeUser(u));
  }

  /** Every field of a user is written with the JSON type its key decodes from. */
  lemma ViewsTypeOk(u: User)
    ensures forall f :: TypeOk(f, View(u, f))
  {
    forall f ensures TypeOk(f, View(u, f)) {
      match f
      case Firstname | Lastname | Email | Mobile | Username | Password | Roles => {}
      case Isactivated | Isblocked | Userpicture | Mailtoken | Qrcodeurl | Secret => {}
    }
  }

  /** A document holding exactly the views of `u` decodes to `u`. */
  lemma DecodeViews(id: string, u: User, d: Doc)
    requires forall f :: f in d && d[f] == View(u, f)
    ensures DecodeUser(id, d) == Some(u.(id := id))
  {
    ViewsTypeOk(u);
    assert WellTyped(d);
    assert Text(d, Firstname) == u.firstname by { assert d[Firstname] == View(u, Firstname); }
    assert Text(d, Lastname) == u.lastname by { assert d[Lastname] == View(u, Lastname); }
    assert Text(d, Email) == u.email by { assert d[Email] == View(u, Email); }
    assert Text(d, Mobile) == u.mobile by { assert d[Mobile] == View(u, Mobile); }
    assert Text(d, Username) == u.username by { assert d[Username] == View(u, Username); }
    assert Text(d, Password) == u.password by { assert d[Password] == View(u, Password); }
    assert Text(d, Roles) == u.roles by { assert d[Roles] == View(u, Roles); }
    assert Text(d, Userpicture) == u.userpicture by { assert d[Userpicture] == View(u, Userpicture); }
    assert Flag(d, Isactivated) == u.isactivated by { assert d[Isactivated] == View(u, Isactivated); }
    assert Flag(d, Isblocked) == u.isblocked by { assert d[Isblocked] == View(u, Isblocked); }
    assert Number(d, Mailtoken) == u.mailtoken by { assert d[Mailtoken] == View(u, Mailtoken); }
    assert Ref(d, Qrcodeurl) == u.qrcodeurl by { assert d[Qrcodeurl] == View(u, Qrcodeurl); }
    assert Ref(d, Secret) == u.secret by { assert d[Secret] == View(u, Secret); }
  }

  /** An Elasticsearch partial "doc" update: the given fields replace the stored ones. */
  function Merge(d: Doc, patch: Doc): (r: Doc)
    ensures r.Keys == d.Keys + patch.Keys
    ensures forall f | f in patch :: r[f] == patch[f]
    ensures forall f | f !in patch :: (f in r <==> f in d) && (f in d ==> r[f] == d[f])
  {
    d + patch
  }

  /** A well-typed patch keeps a well-typed document well-typed. */
  lemma MergeWellTyped(d: Doc, patch: Doc)
    requires WellTyped(d) && WellTyped(patch)
    ensures WellTyped(Merge(d, patch))
  {
  }

  /** Two decoded users agree on every field outside `changed`. */
  predicate SameExcept(a: User, b: User, changed: set<Field>) {
    a.id == b.id && forall f :: f !in changed ==> View(a, f) == View(b, f)
  }

  /**
   * Decoding after a merge: the fields the patch does not name read back as before,
   * and the fields it names read back as the patch wrote them (a null as the zero value).
   */
  lemma {:induction false} DecodeMerge(id: string, d: Doc, patch: Doc)
    requires WellTyped(d) && WellTyped(patch)
    ensures DecodeUser(id, Merge(d, patch)).Some?
    ensures SameExcept(DecodeUser(id, d).value, DecodeUser(id, Merge(d, patch)).value, patch.Keys)
    ensures forall f | f in patch ::
      View(DecodeUser(id, Merge(d, patch)).value, f) == if patch[f].Null? then ZeroView(f) else patch[f]
  {
    MergeWellTyped(d, patch);
    DecodedFields(id, d);
    DecodedFields(id, Merge(d, patch));
  }

  /** A field the patch sets to null reads back after the merge as Go's zero value. */
  lemma ClearedField(id: string, d: Doc, patch: Doc, f: Field)
    requires WellTyped(d) && WellTyped(patch)
    requires f in patch && patch[f].Null?
    ensures DecodeUser(id, Merge(d, patch)).Some?
    ensures View(DecodeUser(id, Merge(d, patch)).value, f) == ZeroView(f)
  {
    MergeWellTyped(d, patch);
    DecodedFields(id, Merge(d, patch));
  }

  /** One field the patch names, with a non-null value, reads back after the merge as the patch wrote it. */
  lemma PatchedField(id: string, d: Doc, patch: Doc, f: Field)
    requires WellTyped(d) && WellTyped(patch)
    requires f in patch && !patch[f].Null?
    ensures DecodeUser(id, Merge(d, patch)).Some?
    ensures View(DecodeUser(id, Merge(d, patch)).value, f) == patch[f]
  {
    MergeWellTyped(d, patch);
    DecodedFields(id, Merge(d, patch));
  }
}

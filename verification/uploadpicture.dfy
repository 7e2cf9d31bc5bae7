/**
 * Profile-picture upload (`middleware/users/uploadpicture.go`). The stored file
 * name is "00", the user id, and the extension of the uploaded file's base name;
 * the file is saved under `assets/users/` and only `userpicture` is updated.
 */
module UploadPicture {
  import opened Wrappers
  import opened Records
  import opened Http
  import opened UserStore

  /** `s` is a suffix of `p`. */
  predicate EndsWith(p: string, s: string) {
    |s| <= |p| && p[|p| - |s|..] == s
  }

  /** The last path element: what follows the last '/' (all of `p` when it has none). */
  function AfterLastSlash(p: string): (r: string)
    ensures '/' !in r && EndsWith(p, r)
    ensures |r| < |p| ==> p[|p| - |r| - 1] == '/'
  {
    if p == [] || p[|p| - 1] == '/' then []
    else
      var r := AfterLastSlash(p[..|p| - 1]) + [p[|p| - 1]];
      assert p[|p| - |r|..] == p[..|p| - 1][|p| - |r|..] + [p[|p| - 1]];
      r
  }

  /** `p` without its trailing slashes. */
  function TrimTrailingSlashes(p: string): (r: string)
    ensures r == [] || r[|r| - 1] != '/'
    ensures forall k | |r| <= k < |p| :: p[k] == '/'
    ensures |r| <= |p| && p[..|r|] == r
  {
    if p == [] || p[|p| - 1] != '/' then p
    else TrimTrailingSlashes(p[..|p| - 1])
  }

  /**
   * Go's `filepath.Base` with '/' as separator: "." for the empty path, "/" for a
   * path of slashes, otherwise the last element after trailing slashes are dropped.
   */
  function Base(p: string): (r: string)
    ensures r != []
    ensures r == "/" || '/' !in r
    ensures p != [] && p[|p| - 1] != '/' ==> r == AfterLastSlash(p)
  {
    if p == [] then "."
    else
      var t := TrimTrailingSlashes(p);
      if t == [] then "/"
      else AfterLastSlash(t)
  }

  /** Go's `filepath.Ext`: the suffix from the last '.' of the last element, or "" when it has none. */
  function Ext(p: string): (r: string)
    ensures r == [] || (r[0] == '.' && '.' !in r[1..] && '/' !in r && EndsWith(p, r))
  {
    if p == [] || p[|p| - 1] == '/' then []
    else if p[|p| - 1] == '.' then "."
    else
      var e := Ext(p[..|p| - 1]);
      if e == [] then []
      else
        var r := e + [p[|p| - 1]];
        assert r[1..] == e[1..] + [p[|p| - 1]];
        assert p[|p| - |r|..] == p[..|p| - 1][|p| - |r|..] + [p[|p| - 1]];
        r
  }

  /** The extension is empty exactly when the last path element has no '.'. */
  lemma {:induction false} ExtEmptyIff(p: string)
    ensures Ext(p) == [] <==> '.' !in AfterLastSlash(p)
  {
    if p != [] && p[|p| - 1] != '/' && p[|p| - 1] != '.' {
      ExtEmptyIff(p[..|p| - 1]);
    }
  }

  lemma ExtPng(q: string)
    ensures Ext(q + ".png") == ".png"
  {
    var p3 := q + ".";
    var p2, p1, p := p3 + "p", p3 + "pn", p3 + "png";
    assert p2[..|p2| - 1] == p3 && p1[..|p1| - 1] == p2 && p[..|p| - 1] == p1;
    assert Ext(p3) == ".";
    assert Ext(p2) == ".p";
    assert Ext(p1) == ".pn";
    assert p == q + ".png";
  }

  /** A file whose name ends in ".png" is stored as "00" + id + ".png", whatever its directory. */
  lemma PngKept(id: string, path: string)
    ensures StoredName(id, path + ".png") == "00" + id + ".png"
  {
    var p := path + ".png";
    ExtPng(path);
    ExtOfLastElement(p);
    assert Base(p) == AfterLastSlash(p);
  }

  /** The extension only depends on the last path element. */
  lemma {:induction false} ExtOfLastElement(p: string)
    ensures Ext(AfterLastSlash(p)) == Ext(p)
  {
    if p != [] && p[|p| - 1] != '/' {
      var init, last := p[..|p| - 1], p[|p| - 1];
      ExtOfLastElement(init);
      var q := AfterLastSlash(init) + [last];
      assert AfterLastSlash(p) == q;
      assert q[..|q| - 1] == AfterLastSlash(init) && q[|q| - 1] == last;
      if last != '.' {
        assert Ext(q) == (if Ext(init) == [] then [] else Ext(init) + [last]);
      }
    }
  }

  /** The name the picture is stored under. */
  function StoredName(id: string, filename: string): (name: string)
    ensures |name| >= 2 + |id| && name[..2 + |id|] == "00" + id
    ensures var ext := name[2 + |id|..]; ext == [] || (ext[0] == '.' && '.' !in ext[1..] && '/' !in ext)
  {
    var ext := Ext(Base(filename));
    assert ("00" + id + ext)[2 + |id|..] == ext;
    "00" + id + ext
  }

  const Folder: string := "assets/users/"

  /** `filepath.Join("./assets/users/", name)`, for a name that is a single path element. */
  function Destination(name: string): (dst: string)
    ensures |dst| >= |Folder| && dst[..|Folder|] == Folder
    ensures '/' !in name ==> AfterLastSlash(dst) == name
  {
    if '/' in name then Folder + name
    else AfterLastSlashOfJoin(Folder, name); Folder + name
  }

  /** For an id with no '/', the picture lands directly in the folder, under the stored name. */
  lemma DestinationInFolder(id: string, filename: string)
    requires '/' !in id
    ensures var dst := Destination(StoredName(id, filename));
      dst[..|Folder|] == Folder && AfterLastSlash(dst) == StoredName(id, filename)
  {
    var name := StoredName(id, filename);
    var dst := Destination(name);
    assert forall k | 0 <= k < |name| :: name[k] == dst[|Folder| + k];
    assert '/' !in name by {
      assert name == "00" + id + name[2 + |id|..];
    }
    AfterLastSlashOfJoin(Folder, name);
  }

  lemma {:induction false} AfterLastSlashOfJoin(dir: string, name: string)
    requires dir != [] && dir[|dir| - 1] == '/' && '/' !in name
    ensures AfterLastSlash(dir + name) == name
  {
    if name != [] {
      var init := name[..|name| - 1];
      assert (dir + name)[..|dir + name| - 1] == dir + init;
      AfterLastSlashOfJoin(dir, init);
      assert name == init + [name[|name| - 1]];
    } else {
      assert dir + name == dir;
    }
  }

  /**
   * The handler. `upload` is the multipart file's name, or the form error;
   * `saveError` is the error saving it gives, if any. `saved` is the path the
   * handler asked to save the file at, when it got that far.
   */
  method UploadPicture(store: Store, id: string, upload: Result<string, string>, saveError: Option<string>,
                       lookup: Link, write: Link) returns (r: Reply, saved: Option<string>)
    requires store.Valid()
    modifies store
    ensures store.Valid() && store.order == old(store.order)
    ensures GetUserid(old(store.docs), id, lookup).Failure? ==>
      r == Message(400, GetUserid(old(store.docs), id, lookup).error) && saved.None? && store.docs == old(store.docs)
    ensures GetUserid(old(store.docs), id, lookup).Success? && id !in old(store.docs) ==>
      r == Message(400, "User ID not found.") && saved.None? && store.docs == old(store.docs)
    ensures GetUserid(old(store.docs), id, lookup).Success? && id in old(store.docs) ==>
      match upload
      case Failure(e) => r == PlainText(400, "get form err: " + e) && saved.None? && store.docs == old(store.docs)
      case Success(filename) =>
        var name := StoredName(id, filename);
        && saved == Some(Destination(name))
        && if saveError.Some? then
             r == PlainText(500, "upload file err: " + saveError.value) && store.docs == old(store.docs)
           else if write == Up then
             && store.docs == old(store.docs)[id := Merge(old(store.docs)[id], map[Userpicture := Str(name)])]
             && r == Json(200, map["userpic" := Str(name), "message" := Str("Profile picture has been changed.")])
           else
             store.docs == old(store.docs) && r.status == 500
  {
    saved := None;
    var user := GetUserid(store.docs, id, lookup);
    if user.Failure? {
      return Message(400, user.error), saved;
    }
    if |user.value| > 0 {
      if upload.Failure? {
        return PlainText(400, "get form err: " + upload.error), saved;
      }
      var filename := Base(upload.value);
      var ext := Ext(filename);
      var newfile := "00" + id + ext;
      var dst := Destination(newfile);
      saved := Some(dst);
      if saveError.Some? {
        return PlainText(500, "upload file err: " + saveError.value), saved;
      }
      var w := store.Update(id, map[Userpicture := Str(newfile)], write);
      if w != Written {
        return WriteFailure(w), saved;
      }
      return Json(200, map["userpic" := Str(newfile), "message" := Str("Profile picture has been changed.")]), saved;
    } else {
      return Message(400, "User ID not found."), saved;
    }
  }

  /** After the upload the user reads back with the new picture and every other field as before. */
  lemma {:induction false} PictureReadsBack(id: string, d: Doc, name: string)
    requires WellTyped(d)
    ensures var u := DecodeUser(id, Merge(d, map[Userpicture := Str(name)]));
      && u.Some? && u.value.userpicture == name
      && SameExcept(DecodeUser(id, d).value, u.value, {Userpicture})
  {
    var patch := map[Userpicture := Str(name)];
    DecodeMerge(id, d, patch);
    assert View(DecodeUser(id, Merge(d, patch)).value, Userpicture) == Str(name);
  }
}

/**
 The profile service with its cache-aside store: what callers read is what the repository holds,
 however entries come and go. Calls are taken one at a time, one page size is used throughout, and
 the cache itself never fails.
 */
module ProfileCache {
  import opened Options

  const ZERO_TIME: int := 0

  const NO_ID: string := ""

  datatype Address = Address(id: string, profileId: string, wanted: AddressRequest, createdAt: int, updatedAt: int)
  datatype Contact = Contact(id: string, profileId: string, wanted: ContactRequest, createdAt: int, updatedAt: int)

  datatype Profile = Profile(id: string, firstName: string, lastName: string, email: string, phone: string,
                             addresses: seq<Address>, contacts: seq<Contact>, createdAt: int, updatedAt: int)

  /** A request: its addresses and contacts carry no ids, owner or times yet. */
  datatype Request = Request(firstName: string, lastName: string, email: string, phone: string,
                             addresses: seq<AddressRequest>, contacts: seq<ContactRequest>)

  datatype AddressRequest = AddressRequest(street: string, city: string, state: string,
                                           country: string, postalCode: string, isPrimary: bool)
  datatype ContactRequest = ContactRequest(kind: string, value: string, isPrimary: bool)

  /** Addresses and contacts as their tables take them: owned by the profile, with the times of the insert. */
  function Stamped(p: Profile, now: int): (r: Profile)
    ensures r == p.(addresses := r.addresses, contacts := r.contacts)
    ensures |r.addresses| == |p.addresses| && |r.contacts| == |p.contacts|
    ensures forall i :: 0 <= i < |p.addresses| ==>
      r.addresses[i].id == p.addresses[i].id && r.addresses[i].wanted == p.addresses[i].wanted
    ensures forall i :: 0 <= i < |p.contacts| ==>
      r.contacts[i].id == p.contacts[i].id && r.contacts[i].wanted == p.contacts[i].wanted
    ensures forall a <- r.addresses :: a.profileId == p.id && a.createdAt == a.updatedAt == now
    ensures forall c <- r.contacts :: c.profileId == p.id && c.createdAt == c.updatedAt == now
  {
    p.(addresses := seq(|p.addresses|, i requires 0 <= i < |p.addresses| =>
         p.addresses[i].(profileId := p.id, createdAt := now, updatedAt := now)),
       contacts := seq(|p.contacts|, i requires 0 <= i < |p.contacts| =>
         p.contacts[i].(profileId := p.id, createdAt := now, updatedAt := now)))
  }

  /** The rows, newest first: the order in which pages list them. */
  function Find(rows: seq<Profile>, id: string): (r: Option<Profile>)
    ensures r.Some? ==> r.value in rows && r.value.id == id
    ensures r.None? ==> forall p <- rows :: p.id != id
  {
    if rows == [] then None
    else if rows[0].id == id then Some(rows[0])
    else Find(rows[1..], id)
  }

  function Replaced(rows: seq<Profile>, p: Profile): (r: seq<Profile>)
    ensures |r| == |rows|
    ensures forall i :: 0 <= i < |rows| ==> r[i] == if rows[i].id == p.id then p else rows[i]
  {
    seq(|rows|, i requires 0 <= i < |rows| => if rows[i].id == p.id then p else rows[i])
  }

  function Removed(rows: seq<Profile>, id: string): seq<Profile> {
    if rows == [] then []
    else (if rows[0].id == id then [] else [rows[0]]) + Removed(rows[1..], id)
  }

  /** `LIMIT size OFFSET (page - 1) * size`. */
  function Page(rows: seq<Profile>, page: int, size: nat): (r: seq<Profile>)
    requires page >= 1
    ensures |r| <= size
  {
    var offset := (page - 1) * size;
    if offset < 0 || offset >= |rows| then []
    else if offset + size <= |rows| then rows[offset..offset + size]
    else rows[offset..]
  }

  // ---- finding rows -------------------------------------------------------------------------

  lemma {:induction false} FindReplaced(rows: seq<Profile>, p: Profile, id: string)
    ensures Find(Replaced(rows, p), id)
         == if id == p.id && Find(rows, id).Some? then Some(p) else Find(rows, id)
  {
    if rows != [] {
      FindReplaced(rows[1..], p, id);
      assert Replaced(rows, p)[1..] == Replaced(rows[1..], p);
    }
  }

  lemma {:induction false} FindRemoved(rows: seq<Profile>, gone: string, id: string)
    ensures Find(Removed(rows, gone), id) == if id == gone then None else Find(rows, id)
  {
    if rows != [] {
      FindRemoved(rows[1..], gone, id);
      if rows[0].id == gone {
        assert [] + Removed(rows[1..], gone) == Removed(rows[1..], gone);
      } else {
        assert ([rows[0]] + Removed(rows[1..], gone))[1..] == Removed(rows[1..], gone);
      }
    }
  }

  /** Removal goes row by row: those of the id go, the others stay in order. */
  lemma RemovedRowByRow(rows: seq<Profile>, p: Profile, id: string)
    ensures Removed([], id) == []
    ensures Removed([p] + rows, id) == (if p.id == id then [] else [p]) + Removed(rows, id)
  {
    assert ([p] + rows)[1..] == rows;
  }

  /** Consecutive pages put together are the rows in order: nothing is skipped or shown twice. */
  lemma {:induction false} PagesCover(rows: seq<Profile>, size: nat, pages: nat)
    requires size > 0
    ensures AllPages(rows, size, pages) == if pages * size <= |rows| then rows[..pages * size] else rows
  {
    if pages > 0 {
      PagesCover(rows, size, pages - 1);
      assert (pages - 1) * size == pages * size - size;
    }
  }

  function AllPages(rows: seq<Profile>, size: nat, pages: nat): seq<Profile> {
    if pages == 0 then [] else AllPages(rows, size, pages - 1) + Page(rows, pages, size)
  }

  // ---- the stores -------------------------------------------------------------------------------

  class Repository {
    var rows: seq<Profile>

    constructor ()
      ensures rows == []
    {
      rows := [];
    }

    /** Inserts with the times the database gives; `fails` is any error, after which nothing is stored. */
    method Create(p: Profile, now: int, fails: bool) returns (stored: Option<Profile>)
      modifies this
      ensures fails ==> stored.None? && rows == old(rows)
      ensures !fails ==>
        stored == Some(Stamped(p, now).(createdAt := now, updatedAt := now)) && rows == [stored.value] + old(rows)
    {
      if fails {
        return None;
      }
      var row := Stamped(p, now).(createdAt := now, updatedAt := now);
      rows := [row] + rows;
      return Some(row);
    }

    /**
     Updates a row in place, keeping its creation time, and inserts its addresses and contacts
     anew; no row is an error. What is handed back is the caller's profile, with its own update
     time only.
     */
    method Update(p: Profile, now: int, fails: bool) returns (written: Option<Profile>)
      modifies this
      ensures written.Some? <==> !fails && Find(old(rows), p.id).Some?
      ensures written.None? ==> rows == old(rows)
      ensures written.Some? ==> written.value == Stamped(p, now).(updatedAt := now)
      ensures written.Some? ==>
        rows == Replaced(old(rows), written.value.(createdAt := Find(old(rows), p.id).value.createdAt))
    {
      var row := Find(rows, p.id);
      if fails || row.None? {
        return None;
      }
      var p' := Stamped(p, now).(updatedAt := now);
      rows := Replaced(rows, p'.(createdAt := row.value.createdAt));
      return Some(p');
    }

    method Delete(id: string, fails: bool) returns (ok: bool)
      modifies this
      ensures ok <==> !fails && Find(old(rows), id).Some?
      ensures rows == if ok then Removed(old(rows), id) else old(rows)
    {
      var row := Find(rows, id);
      ok := !fails && row.Some?;
      if ok {
        rows := Removed(rows, id);
      }
    }
  }

  class Cache {
    var profiles: map<string, Profile>
    var lists: map<int, seq<Profile>>

    constructor ()
      ensures profiles == map[] && lists == map[]
    {
      profiles, lists := map[], map[];
    }

    method SetProfile(p: Profile)
      modifies this`profiles
      ensures profiles == old(profiles)[p.id := p]
    {
      profiles := profiles[p.id := p];
    }

    method InvalidateProfile(id: string)
      modifies this`profiles
      ensures profiles == old(profiles) - {id}
    {
      profiles := profiles - {id};
    }

    method SetProfileList(page: int, profiles: seq<Profile>)
      modifies this`lists
      ensures lists == old(lists)[page := profiles]
    {
      lists := lists[page := profiles];
    }

    method InvalidateProfileLists()
      modifies this`lists
      ensures lists == map[]
    {
      lists := map[];
    }

    /** Entries outlive their time at any moment. */
    method Expire(ids: set<string>, pages: set<int>)
      modifies this
      ensures profiles == old(profiles) - ids && lists == old(lists) - pages
    {
      profiles, lists := profiles - ids, lists - pages;
    }
  }

  // ---- the service ------------------------------------------------------------------------------

  /** What a reader may get for a stored row: the row, or the row without its creation time. */
  predicate Shows(shown: Profile, row: Profile) {
    shown == row || shown == row.(createdAt := ZERO_TIME)
  }

  /** The profile a request asks for under this id; each address and contact has an id of its own from `ids`, and the owner. */
  predicate IsOf(p: Profile, id: string, req: Request, ids: nat -> string) {
    && p.id == id && p.firstName == req.firstName && p.lastName == req.lastName
    && p.email == req.email && p.phone == req.phone
    && |p.addresses| == |req.addresses| && |p.contacts| == |req.contacts|
    && (forall i :: 0 <= i < |p.addresses| ==>
          && p.addresses[i].wanted == req.addresses[i] && p.addresses[i].id == ids(i) && p.addresses[i].profileId == id)
    && (forall i :: 0 <= i < |p.contacts| ==>
          && p.contacts[i].wanted == req.contacts[i] && p.contacts[i].id == ids(|p.addresses| + i)
          && p.contacts[i].profileId == id)
  }

  lemma BuiltIsOf(id: string, req: Request, ids: nat -> string, now: int)
    ensures var p := Stamped(FromRequest(id, req, ids), now);
      && IsOf(p.(updatedAt := now), id, req, ids) && IsOf(p.(createdAt := now, updatedAt := now), id, req, ids)
      && p.id == id
  {
  }

  class Service {
    const repo: Repository
    const cache: Cache?
    const pageSize: nat

    /** The cache agrees with the repository. */
    ghost predicate Coherent()
      reads this, repo, cache
    {
      cache == null ||
      (&& (forall id <- cache.profiles ::
             Find(repo.rows, id).Some? && Shows(cache.profiles[id], Find(repo.rows, id).value))
       && (forall page <- cache.lists :: page >= 1 && cache.lists[page] == Page(repo.rows, page, pageSize)))
    }

    ghost function Footprint(): set<object>
      reads this
    {
      {repo} + if cache == null then {} else {cache}
    }

    constructor (repo: Repository, cache: Cache?, pageSize: nat)
      requires cache == null || (cache.profiles == map[] && cache.lists == map[])
      ensures this.repo == repo && this.cache == cache && this.pageSize == pageSize && Coherent()
    {
      this.repo, this.cache, this.pageSize := repo, cache, pageSize;
    }

    method Create(req: Request, valid: bool, newId: string, ids: nat -> string, now: int, fails: bool)
      returns (r: Option<Profile>)
      requires Coherent() && Find(repo.rows, newId).None?
      modifies Footprint()
      ensures Coherent()
      ensures r.Some? <==> valid && !fails
      ensures r.None? ==> repo.rows == old(repo.rows)
      ensures r.Some? ==> r.value == Stamped(FromRequest(newId, req, ids), now).(createdAt := now, updatedAt := now)
      ensures r.Some? ==> repo.rows == [r.value] + old(repo.rows)
      ensures r.Some? ==> IsOf(r.value, newId, req, ids) && r.value.createdAt == r.value.updatedAt == now
    {
      if !valid {
        return None;
      }
      var p := FromRequest(newId, req, ids);
      BuiltIsOf(newId, req, ids, now);
      hide IsOf, Stamped;
      r := repo.Create(p, now, fails);
      if r.None? {
        return;
      }
      if cache != null {
        forall id ensures Find(repo.rows, id) == if id == newId then r else Find(old(repo.rows), id) {
          assert repo.rows[1..] == old(repo.rows);
        }
        cache.SetProfile(r.value);
        cache.InvalidateProfileLists();
      }
    }

    /** Reads through the cache: exactly the stored profiles are found. */
    method GetByID(id: string) returns (r: Option<Profile>)
      requires Coherent()
      modifies cache
      ensures Coherent()
      ensures r.Some? <==> Find(repo.rows, id).Some?
      ensures r.Some? ==> Shows(r.value, Find(repo.rows, id).value)
      ensures r.Some? ==> var row := Find(repo.rows, id).value; r.value == row || r.value == row.(createdAt := 0)
      ensures old(cache == null || id !in cache.profiles) ==> r == Find(repo.rows, id)
    {
      if cache != null && id in cache.profiles {
        return Some(cache.profiles[id]);
      }
      r := Find(repo.rows, id);
      if r.Some? && cache != null {
        cache.SetProfile(r.value);
      }
    }

    /** A page is always the repository's page; a page before the first is an error of the query. */
    method List(page: int) returns (r: Option<seq<Profile>>)
      requires Coherent()
      modifies cache
      ensures Coherent()
      ensures r == if page >= 1 then Some(Page(repo.rows, page, pageSize)) else None
    {
      if cache != null && page in cache.lists {
        return Some(cache.lists[page]);
      }
      if page < 1 {
        return None;
      }
      r := Some(Page(repo.rows, page, pageSize));
      if cache != null {
        cache.SetProfileList(page, r.value);
      }
    }

    /** Writes the row and caches what was written, which has no creation time. */
    method Update(id: string, req: Request, valid: bool, ids: nat -> string, now: int, fails: bool)
      returns (r: Option<Profile>)
      requires Coherent()
      modifies Footprint()
      ensures Coherent()
      ensures r.Some? <==> valid && !fails && Find(old(repo.rows), id).Some?
      ensures r.None? ==> repo.rows == old(repo.rows)
      ensures r.Some? ==> r.value == Stamped(FromRequest(id, req, ids), now).(updatedAt := now)
      ensures r.Some? ==> IsOf(r.value, id, req, ids) && r.value.updatedAt == now
      ensures r.Some? ==>
        Find(repo.rows, id) == Some(r.value.(createdAt := Find(old(repo.rows), id).value.createdAt))
      ensures r.Some? ==>
        repo.rows == Replaced(old(repo.rows), r.value.(createdAt := Find(old(repo.rows), id).value.createdAt))
      ensures r.Some? && cache != null ==> id in cache.profiles && cache.profiles[id].createdAt == ZERO_TIME
    {
      if !valid {
        return None;
      }
      var p := FromRequest(id, req, ids);
      BuiltIsOf(id, req, ids, now);
      assert p.id == id;
      hide IsOf, Stamped, FromRequest, Replaced;
      r := repo.Update(p, now, fails);
      if r.None? {
        return;
      }
      forall other
        ensures Find(repo.rows, other) == if other == id
          then Some(r.value.(createdAt := Find(old(repo.rows), id).value.createdAt)) else Find(old(repo.rows), other)
      {
        FindReplaced(old(repo.rows), r.value.(createdAt := Find(old(repo.rows), id).value.createdAt), other);
      }
      if cache != null {
        cache.SetProfile(r.value);
        cache.InvalidateProfileLists();
      }
    }

    method Delete(id: string, fails: bool) returns (ok: bool)
      requires Coherent()
      modifies Footprint()
      ensures Coherent()
      ensures ok <==> !fails && Find(old(repo.rows), id).Some?
      ensures !ok ==> repo.rows == old(repo.rows)
      ensures ok ==> repo.rows == Removed(old(repo.rows), id) && Find(repo.rows, id).None?
    {
      ok := repo.Delete(id, fails);
      if !ok {
        return;
      }
      forall other
        ensures Find(repo.rows, other) == if other == id then None else Find(old(repo.rows), other)
      {
        FindRemoved(old(repo.rows), id, other);
      }
      if cache != null {
        cache.InvalidateProfile(id);
        cache.InvalidateProfileLists();
      }
    }

    /** Expiry of any entries keeps the cache coherent. */
    method Expire(ids: set<string>, pages: set<int>)
      requires Coherent() && cache != null
      modifies cache
      ensures Coherent()
    {
      cache.Expire(ids, pages);
    }
  }

  /** A profile as the service builds it: fresh ids for its parts, and no times yet. */
  function FromRequest(id: string, req: Request, ids: nat -> string): Profile {
    Profile(id, req.firstName, req.lastName, req.email, req.phone,
            seq(|req.addresses|, i requires 0 <= i < |req.addresses| =>
              Address(ids(i), NO_ID, req.addresses[i], ZERO_TIME, ZERO_TIME)),
            seq(|req.contacts|, i requires 0 <= i < |req.contacts| =>
              Contact(ids(|req.addresses| + i), NO_ID, req.contacts[i], ZERO_TIME, ZERO_TIME)),
            ZERO_TIME, ZERO_TIME)
  }
}

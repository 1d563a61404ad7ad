/** The tables of upload requests, file chunks and committed files, and the API steps on them. */
module UploadLifecycle {
  type User = nat
  type FileId = nat

  /** The primary key of an upload request. */
  datatype Key = Key(user: User, req: nat)
  datatype Chunk = Chunk(key: Key, part: nat)
  /** Whether `time_committed` is set. */
  datatype Request = Open | Committed
  /** Owner and last upload request of a file are set or null together. */
  datatype File = Orphan | Of(key: Key)

  datatype Status = Accepted | Created | BadRequest | Forbidden | NotFound | DbError

  const MAX_ACTIVE_REQUESTS := 3

  datatype Tables = Tables(requests: map<Key, Request>, chunks: set<Chunk>, files: map<FileId, File>)

  function RequestsOf(requests: map<Key, Request>, user: User): set<Key> {
    set k | k in requests && k.user == user
  }

  function Parts(chunks: set<Chunk>, key: Key): set<nat> {
    set c | c in chunks && c.key == key :: c.part
  }

  function FirstParts(n: nat): (s: set<nat>)
    ensures |s| == n && forall i :: i in s <==> 1 <= i <= n
  {
    if n == 0 then {} else FirstParts(n - 1) + {n}
  }

  // ---- The invariant ----

  /** A request is committed exactly when a file has it as its last request, and then only one does. */
  ghost predicate CommittedOnce(t: Tables) {
    && (forall f :: f in t.files && t.files[f].Of? ==>
          t.files[f].key in t.requests && t.requests[t.files[f].key] == Committed)
    && (forall f, g :: f in t.files && g in t.files && t.files[f].Of? && t.files[g] == t.files[f] ==> f == g)
    && (forall k :: k in t.requests && t.requests[k] == Committed ==> exists f :: f in t.files && t.files[f] == Of(k))
  }

  /** The chunks behind a file are numbered from one without gaps. */
  ghost predicate FilesWhole(t: Tables) {
    forall f :: f in t.files && t.files[f].Of? ==> Whole(Parts(t.chunks, t.files[f].key))
  }

  predicate Whole(parts: set<nat>) {
    parts != {} && parts == FirstParts(|parts|)
  }

  predicate ChunksOwned(t: Tables) {
    forall c :: c in t.chunks ==> c.key in t.requests
  }

  ghost predicate FewRequests(t: Tables) {
    forall u: User :: |RequestsOf(t.requests, u)| <= MAX_ACTIVE_REQUESTS
  }

  ghost predicate Inv(t: Tables) {
    CommittedOnce(t) && FilesWhole(t) && ChunksOwned(t) && FewRequests(t)
  }

  // ---- The part-number check ----

  /** The aggregate query over the parts of a request; all zero when there is no row. */
  method Aggregate(parts: set<nat>) returns (max: nat, min: nat, count: nat)
    ensures parts == {} ==> max == 0 && min == 0
    ensures parts != {} ==> max in parts && min in parts && forall p :: p in parts ==> min <= p <= max
    ensures count == |parts|
  {
    max, min, count := 0, 0, 0;
    var seen := {};
    while seen != parts
      invariant seen <= parts && count == |seen|
      invariant seen == {} ==> max == 0 && min == 0
      invariant seen != {} ==> max in seen && min in seen && forall p :: p in seen ==> min <= p <= max
      decreases |parts - seen|
    {
      SubsetLeaves(seen, parts);
      var p :| p in parts && p !in seen;
      Smaller(seen, parts, p);
      if seen == {} {
        max, min := p, p;
      } else {
        max := if p > max then p else max;
        min := if p < min then p else min;
      }
      count := count + 1;
      seen := seen + {p};
    }
  }

  lemma SubsetLeaves<T>(a: set<T>, b: set<T>)
    requires a <= b && a != b
    ensures exists x :: x in b && x !in a
  {
    assert b == a + (b - a);
  }

  lemma Smaller<T>(a: set<T>, b: set<T>, x: T)
    requires x in b && x !in a
    ensures |b - (a + {x})| < |b - a| && |a + {x}| == |a| + 1
  {
    assert b - (a + {x}) == (b - a) - {x};
  }

  lemma SubsetSize<T>(a: set<T>, b: set<T>)
    requires a <= b
    ensures |a| <= |b| && (|a| == |b| ==> a == b)
  {
    assert b == a + (b - a);
  }

  /** Smallest part one and largest part equal to the count: exactly the parts from one on. */
  lemma AdjacentIffWhole(parts: set<nat>, max: nat, min: nat)
    requires parts == {} ==> max == 0 && min == 0
    requires parts != {} ==> max in parts && min in parts && forall p :: p in parts ==> min <= p <= max
    ensures max != 0 && min == 1 && max == |parts| <==> Whole(parts)
  {
    if max != 0 && min == 1 && max == |parts| {
      SubsetSize(parts, FirstParts(max));
    }
    if Whole(parts) {
      assert 1 in parts && |parts| in parts;
    }
  }

  // ---- The steps, on values ----

  function Initiated(t: Tables, user: User, req: nat): (Tables, Status) {
    var key := Key(user, req);
    if |RequestsOf(t.requests, user)| >= MAX_ACTIVE_REQUESTS then (t, BadRequest)
    else if key in t.requests then (t, DbError)
    else (t.(requests := t.requests[key := Open]), Created)
  }

  function Uploaded(t: Tables, key: Key, part: nat): (Tables, Status) {
    if key !in t.requests || t.requests[key] == Committed then (t, BadRequest)
    else if Chunk(key, part) in t.chunks then (t, DbError)
    else (t.(chunks := t.chunks + {Chunk(key, part)}), Created)
  }

  /** The transaction that gives an existing file a new last request. */
  function Replaced(t: Tables, key: Key, file: FileId): Tables
    requires file in t.files
  {
    var last := t.files[file];
    var reopened := if last.Of? && last.key in t.requests then t.requests[last.key := Open] else t.requests;
    t.(requests := reopened[key := Committed], files := t.files[file := Of(key)])
  }

  function Completed(t: Tables, key: Key, file: FileId): (Tables, Status) {
    if key !in t.requests || t.requests[key] == Committed || !Whole(Parts(t.chunks, key)) then (t, BadRequest)
    else if file !in t.files then
      (t.(requests := t.requests[key := Committed], files := t.files[file := Of(key)]), Created)
    else if t.files[file].Orphan? || t.files[file].key.user == key.user then (Replaced(t, key, file), Accepted)
    else (t, Forbidden)
  }

  function Without(chunks: set<Chunk>, key: Key): set<Chunk> {
    set c | c in chunks && c.key != key
  }

  function Discarded(t: Tables, user: User, file: FileId): (Tables, Status) {
    if file !in t.files then (t, NotFound)
    else if t.files[file].Orphan? || t.files[file].key.user != user then (t, Forbidden)
    else
      var key := t.files[file].key;
      (Tables(t.requests - {key}, Without(t.chunks, key), t.files - {file}), Accepted)
  }

  datatype Step =
    | Initiate(user: User, req: nat)
    | Upload(key: Key, part: nat)
    | Complete(key: Key, file: FileId)
    | Discard(user: User, file: FileId)

  function Apply(t: Tables, step: Step): Tables {
    match step
    case Initiate(user, req) => Initiated(t, user, req).0
    case Upload(key, part) => Uploaded(t, key, part).0
    case Complete(key, file) => Completed(t, key, file).0
    case Discard(user, file) => Discarded(t, user, file).0
  }

  // ---- Every step keeps the invariant ----

  lemma FewerRequests(a: map<Key, Request>, b: map<Key, Request>, user: User)
    requires b.Keys <= a.Keys
    ensures |RequestsOf(b, user)| <= |RequestsOf(a, user)|
  {
    SubsetSize(RequestsOf(b, user), RequestsOf(a, user));
  }

  lemma InitiateFew(t: Tables, user: User, req: nat)
    requires FewRequests(t)
    ensures FewRequests(Initiated(t, user, req).0)
  {
    var u := Initiated(t, user, req).0;
    forall v: User ensures |RequestsOf(u.requests, v)| <= MAX_ACTIVE_REQUESTS {
      if v == user && u != t {
        assert RequestsOf(u.requests, v) == RequestsOf(t.requests, v) + {Key(user, req)};
      } else {
        assert RequestsOf(u.requests, v) == RequestsOf(t.requests, v);
      }
    }
  }

  lemma InitiateKeeps(t: Tables, user: User, req: nat)
    requires Inv(t)
    ensures Inv(Initiated(t, user, req).0)
  {
    hide Whole, Parts, FewRequests, RequestsOf;
    InitiateFew(t, user, req);
  }

  lemma UploadKeeps(t: Tables, key: Key, part: nat)
    requires Inv(t)
    ensures Inv(Uploaded(t, key, part).0)
  {
    var u := Uploaded(t, key, part).0;
    forall f | f in t.files && t.files[f].Of?
      ensures Parts(u.chunks, t.files[f].key) == Parts(t.chunks, t.files[f].key)
    {
      assert u != t ==> t.files[f].key != key;
    }
  }

  lemma CompleteKeeps(t: Tables, key: Key, file: FileId)
    requires Inv(t)
    ensures Inv(Completed(t, key, file).0)
  {
    var u := Completed(t, key, file).0;
    forall v: User ensures |RequestsOf(u.requests, v)| <= MAX_ACTIVE_REQUESTS {
      FewerRequests(t.requests, u.requests, v);
    }
    if u != t {
      CompleteOnce(t, u, key, file);
    }
  }

  lemma CompleteOnce(t: Tables, u: Tables, key: Key, file: FileId)
    requires CommittedOnce(t) && key in t.requests && t.requests[key] == Open
    requires if file in t.files then u == Replaced(t, key, file)
             else u == t.(requests := t.requests[key := Committed], files := t.files[file := Of(key)])
    ensures CommittedOnce(u)
  {
    forall k | k in u.requests && u.requests[k] == Committed ensures exists f :: f in u.files && u.files[f] == Of(k) {
      if k == key {
        assert u.files[file] == Of(k);
      } else {
        var f :| f in t.files && t.files[f] == Of(k);
        assert f != file;
        assert u.files[f] == Of(k);
      }
    }
  }

  lemma DiscardKeeps(t: Tables, user: User, file: FileId)
    requires Inv(t)
    ensures Inv(Discarded(t, user, file).0)
  {
    hide Whole;
    var u := Discarded(t, user, file).0;
    if u != t {
      var key := t.files[file].key;
      forall v: User ensures |RequestsOf(u.requests, v)| <= MAX_ACTIVE_REQUESTS {
        FewerRequests(t.requests, u.requests, v);
      }
      forall f | f in u.files && u.files[f].Of?
        ensures Parts(u.chunks, u.files[f].key) == Parts(t.chunks, u.files[f].key)
      {
        assert t.files[f].key != key;
      }
      forall k | k in u.requests && u.requests[k] == Committed ensures exists f :: f in u.files && u.files[f] == Of(k) {
        var f :| f in t.files && t.files[f] == Of(k);
        assert f != file;
        assert u.files[f] == Of(k);
      }
    }
  }

  // ---- What a step means for its caller ----

  lemma InitiateAdds(t: Tables, user: User, req: nat)
    ensures var (u, status) := Initiated(t, user, req);
            status == Created ==>
              && |RequestsOf(u.requests, user)| == |RequestsOf(t.requests, user)| + 1
              && (Inv(t) ==> Parts(u.chunks, Key(user, req)) == {})
  {
    var (u, status) := Initiated(t, user, req);
    if status == Created {
      assert RequestsOf(u.requests, user) == RequestsOf(t.requests, user) + {Key(user, req)};
    }
  }

  lemma UploadAdds(t: Tables, key: Key, part: nat)
    ensures Chunk(key, part) in t.chunks <==> part in Parts(t.chunks, key)
    ensures var (u, status) := Uploaded(t, key, part);
            status == Created ==> Parts(u.chunks, key) == Parts(t.chunks, key) + {part}
  {
    var (u, status) := Uploaded(t, key, part);
    if status == Created {
      assert Chunk(key, part) in u.chunks;
    }
  }

  /** The chunks behind a file are those of a committed request, to which none is added. */
  lemma UploadSpares(t: Tables, key: Key, part: nat)
    requires Inv(t)
    ensures var u := Uploaded(t, key, part).0;
            u.files == t.files && forall f :: f in t.files && t.files[f].Of? ==>
              Parts(u.chunks, t.files[f].key) == Parts(t.chunks, t.files[f].key)
  {
    var u := Uploaded(t, key, part).0;
    forall f | f in t.files && t.files[f].Of?
      ensures Parts(u.chunks, t.files[f].key) == Parts(t.chunks, t.files[f].key)
    {
      assert u != t ==> t.files[f].key != key;
    }
  }

  lemma DiscardRemoves(t: Tables, user: User, file: FileId)
    ensures var (u, status) := Discarded(t, user, file);
            status == Accepted ==> Parts(u.chunks, t.files[file].key) == {}
  {
  }

  lemma DiscardSpares(t: Tables, user: User, file: FileId)
    requires Inv(t)
    ensures var (u, status) := Discarded(t, user, file);
            status == Accepted ==>
              && |RequestsOf(u.requests, user)| == |RequestsOf(t.requests, user)| - 1 < MAX_ACTIVE_REQUESTS
              && forall f :: f in t.files && f != file ==>
                f in u.files && u.files[f] == t.files[f]
                && (t.files[f].Of? ==> Parts(u.chunks, t.files[f].key) == Parts(t.chunks, t.files[f].key))
  {
    var (u, status) := Discarded(t, user, file);
    if status == Accepted {
      var key := t.files[file].key;
      assert RequestsOf(t.requests, user) == RequestsOf(u.requests, user) + {key};
      forall f | f in t.files && f != file && t.files[f].Of?
        ensures Parts(u.chunks, t.files[f].key) == Parts(t.chunks, t.files[f].key)
      {
        assert t.files[f].key != key;
      }
    }
  }

  lemma StepKeeps(t: Tables, step: Step)
    requires Inv(t)
    ensures Inv(Apply(t, step))
  {
    hide Inv;
    match step
    case Initiate(user, req) => InitiateKeeps(t, user, req);
    case Upload(key, part) => UploadKeeps(t, key, part);
    case Complete(key, file) => CompleteKeeps(t, key, file);
    case Discard(user, file) => DiscardKeeps(t, user, file);
  }

  function Run(t: Tables, steps: seq<Step>): Tables {
    if steps == [] then t else Apply(Run(t, steps[..|steps| - 1]), steps[|steps| - 1])
  }

  const EMPTY := Tables(map[], {}, map[])

  /** The invariant holds after every sequence of steps. */
  lemma {:induction false} AlwaysKept(steps: seq<Step>)
    ensures Inv(Run(EMPTY, steps))
  {
    if steps == [] {
      forall u: User ensures |RequestsOf(EMPTY.requests, u)| <= MAX_ACTIVE_REQUESTS {
        assert RequestsOf(EMPTY.requests, u) == {};
      }
    } else {
      AlwaysKept(steps[..|steps| - 1]);
      StepKeeps(Run(EMPTY, steps[..|steps| - 1]), steps[|steps| - 1]);
    }
  }

  // ---- Who owns a file ----

  predicate Owns(t: Tables, user: User, file: FileId) {
    file in t.files && t.files[file].Of? && t.files[file].key.user == user
  }

  lemma StepOwns(t: Tables, step: Step, user: User, file: FileId)
    requires Owns(t, user, file) && step != Discard(user, file)
    ensures Owns(Apply(t, step), user, file)
  {
  }

  /** A file keeps its owner until the owner discards it, whatever the requests of anybody. */
  lemma {:induction false} OwnerKept(t: Tables, steps: seq<Step>, user: User, file: FileId)
    requires Owns(t, user, file) && Discard(user, file) !in steps
    ensures Owns(Run(t, steps), user, file)
  {
    if steps != [] {
      var n := |steps| - 1;
      OwnerKept(t, steps[..n], user, file);
      assert steps[n] in steps;
      StepOwns(Run(t, steps[..n]), steps[n], user, file);
    }
  }

  /** Who gets a file: only a user that completes a request of their own for it while nobody owns it. */
  lemma OwnerGained(t: Tables, step: Step, user: User, file: FileId)
    requires !Owns(t, user, file) && Owns(Apply(t, step), user, file)
    ensures step.Complete? && step.file == file && step.key.user == user && Uncommitted(t, step.key)
    ensures file in t.files ==> t.files[file].Orphan?
  {
  }

  predicate Uncommitted(t: Tables, key: Key) {
    key in t.requests && t.requests[key] == Open
  }

  // ---- The steps, on the tables ----

  class Database {
    var requests: map<Key, Request>
    var chunks: set<Chunk>
    var files: map<FileId, File>

    function Contents(): Tables
      reads this
    {
      Tables(requests, chunks, files)
    }

    constructor ()
      ensures Contents() == EMPTY
    {
      requests, chunks, files := map[], {}, map[];
    }

    /** The request exists once and is not committed. */
    predicate Uncommitted(key: Key)
      reads this
    {
      key in requests && requests[key] == Open
    }

    /** A created request is one more of the user's, uncommitted and without chunks; nothing else changes. */
    method InitiateUpload(user: User, req: nat) returns (status: Status)
      modifies this
      ensures (Contents(), status) == Initiated(old(Contents()), user, req)
      ensures old(Inv(Contents())) ==> Inv(Contents())
      ensures status == Created <==>
                old(|RequestsOf(requests, user)|) < MAX_ACTIVE_REQUESTS && Key(user, req) !in old(requests)
      ensures status == BadRequest <==> old(|RequestsOf(requests, user)|) >= MAX_ACTIVE_REQUESTS
      ensures status == Created || status == BadRequest || status == DbError
      ensures status != Created ==> Contents() == old(Contents())
      ensures status == Created ==> files == old(files) && chunks == old(chunks)
      ensures status == Created ==>
                && requests == old(requests)[Key(user, req) := Open]
                && Uncommitted(Key(user, req)) && Key(user, req) !in old(requests)
                && |RequestsOf(requests, user)| == old(|RequestsOf(requests, user)|) + 1 <= MAX_ACTIVE_REQUESTS
                && (old(Inv(Contents())) ==> Parts(chunks, Key(user, req)) == {})
    {
      hide Inv;
      if Inv(Contents()) { InitiateKeeps(Contents(), user, req); }
      InitiateAdds(Contents(), user, req);
      var active := |RequestsOf(requests, user)|;
      if active < MAX_ACTIVE_REQUESTS {
        if Key(user, req) in requests {
          return DbError;
        }
        requests := requests[Key(user, req) := Open];
        status := Created;
      } else {
        status := BadRequest;
      }
    }

    /** A created chunk is a new part of an uncommitted request; the parts behind a file stay as they are. */
    method AddChunk(key: Key, part: nat) returns (status: Status)
      modifies this
      ensures (Contents(), status) == Uploaded(old(Contents()), key, part)
      ensures old(Inv(Contents())) ==> Inv(Contents())
      ensures status == Created <==>
                key in old(requests) && old(requests)[key] == Open && part !in old(Parts(chunks, key))
      ensures status == BadRequest <==> key !in old(requests) || old(requests)[key] == Committed
      ensures status == Created || status == BadRequest || status == DbError
      ensures status != Created ==> Contents() == old(Contents())
      ensures status == Created ==>
                requests == old(requests) && files == old(files) && chunks == old(chunks) + {Chunk(key, part)}
      ensures status == Created ==>
                && Uncommitted(key) && part !in old(Parts(chunks, key))
                && Parts(chunks, key) == old(Parts(chunks, key)) + {part}
      ensures old(Inv(Contents())) ==>
                files == old(files) && forall f :: f in files && files[f].Of? ==>
                  Parts(chunks, files[f].key) == old(Parts(chunks, files[f].key))
    {
      hide Inv;
      if Inv(Contents()) {
        UploadKeeps(Contents(), key, part);
        UploadSpares(Contents(), key, part);
      }
      UploadAdds(Contents(), key, part);
      if !Uncommitted(key) {
        return BadRequest;
      }
      if Chunk(key, part) in chunks {
        return DbError;
      }
      chunks := chunks + {Chunk(key, part)};
      status := Created;
    }

    /** `UPDATE upload_request SET time_committed`: does nothing when there is no such row. */
    method SetRequest(key: Key, state: Request)
      modifies this`requests
      ensures requests == if key in old(requests) then old(requests)[key := state] else old(requests)
    {
      if key in requests {
        requests := requests[key := state];
      }
    }

    method CompleteUpload(key: Key, file: FileId) returns (status: Status)
      modifies this
      ensures (Contents(), status) == Completed(old(Contents()), key, file)
      ensures old(Inv(Contents())) ==> Inv(Contents())
      ensures status == BadRequest <==>
                key !in old(requests) || old(requests)[key] == Committed || !Whole(old(Parts(chunks, key)))
      ensures status == Created <==> status != BadRequest && file !in old(files)
      ensures status == Forbidden <==>
                && status != BadRequest && file in old(files)
                && old(files)[file].Of? && old(files)[file].key.user != key.user
      ensures status == Created || status == Accepted || status == BadRequest || status == Forbidden
      ensures status != Created && status != Accepted ==> Contents() == old(Contents())
      ensures status == Created || status == Accepted ==>
                && key in requests && requests[key] == Committed && Whole(Parts(chunks, key))
                && files == old(files)[file := Of(key)] && chunks == old(chunks)
                && requests.Keys == old(requests.Keys)
                && forall k :: k in requests && k != key ==>
                  requests[k] == if file in old(files) && old(files)[file] == Of(k) then Open else old(requests)[k]
    {
      hide Inv;
      if Inv(Contents()) { CompleteKeeps(Contents(), key, file); }
      if !Uncommitted(key) {
        return BadRequest;
      }
      var parts := Parts(chunks, key);
      var max, min, count := Aggregate(parts);
      AdjacentIffWhole(parts, max, min);
      if max == 0 || min == 0 || count == 0 || min != 1 || max != count {
        return BadRequest;
      }
      if file !in files {
        files := files[file := Of(key)];
        SetRequest(key, Committed);
        return Created;
      }
      var last := files[file];
      if last.Of? && last.key.user != key.user {
        return Forbidden;
      }
      if last.Of? {
        SetRequest(last.key, Open);
      }
      files := files[file := Of(key)];
      SetRequest(key, Committed);
      status := Accepted;
    }

    /**
     An accepted call removes the file with its request and its chunks, so that the owner may start
     another upload; the other files keep their requests and parts.
     */
    method DiscardFile(user: User, file: FileId) returns (status: Status)
      modifies this
      ensures (Contents(), status) == Discarded(old(Contents()), user, file)
      ensures old(Inv(Contents())) ==> Inv(Contents())
      ensures status == NotFound <==> file !in old(files)
      ensures status == Accepted <==>
                file in old(files) && old(files)[file].Of? && old(files)[file].key.user == user
      ensures status == NotFound || status == Accepted || status == Forbidden
      ensures status != Accepted ==> Contents() == old(Contents())
      ensures status == Accepted ==> files == old(files) - {file} && requests == old(requests) - {old(files)[file].key}
      ensures status == Accepted ==>
                && file in old(files) && old(files)[file].Of? && old(files)[file].key.user == user
                && file !in files && old(files)[file].key !in requests && Parts(chunks, old(files)[file].key) == {}
                && forall c :: c in chunks <==> c in old(chunks) && c.key != old(files)[file].key
      ensures status == Accepted && old(Inv(Contents())) ==>
                && |RequestsOf(requests, user)| == old(|RequestsOf(requests, user)|) - 1 < MAX_ACTIVE_REQUESTS
                && forall f :: f in old(files) && f != file ==>
                  f in files && files[f] == old(files)[f]
                  && (files[f].Of? ==> Parts(chunks, files[f].key) == Parts(old(chunks), old(files)[f].key))
    {
      hide Inv;
      if Inv(Contents()) {
        DiscardKeeps(Contents(), user, file);
        DiscardSpares(Contents(), user, file);
      }
      DiscardRemoves(Contents(), user, file);
      if file !in files {
        return NotFound;
      }
      var last := files[file];
      if last.Orphan? || last.key.user != user {
        return Forbidden;
      }
      files := files - {file};
      chunks := Without(chunks, last.key);
      requests := requests - {last.key};
      status := Accepted;
    }
  }
}

/**
 * The `users` and `refreshTokens` collections as in-memory sequences in natural
 * order: `findOne` returns the first match, `deleteOne` removes the first match,
 * `updateOne` changes the first match. The refresh-token collection has no
 * unique index, so the same token may be stored more than once.
 */
module Collections {
  import opened Wrappers
  import opened ObjectIds
  import opened UsersSchema
  import Seqs

  /** A refresh-token document: owner, token string and its decoded `iat` and `exp`. */
  datatype RefreshRecord = RefreshRecord(user_id: ObjectId, token: string, iat: int, exp: int)

  /** `refreshTokens.findOne({ token })`. */
  function FindToken(rs: seq<RefreshRecord>, token: string): (r: Option<nat>)
    ensures r.Some? ==> r.value < |rs| && rs[r.value].token == token
    ensures r.Some? ==> forall j :: 0 <= j < r.value ==> rs[j].token != token
    ensures r.None? <==> forall j :: 0 <= j < |rs| ==> rs[j].token != token
  {
    Seqs.FirstIndex(rs, (rec: RefreshRecord) => rec.token == token)
  }

  /** Whether some record carries exactly this token. */
  predicate HasToken(rs: seq<RefreshRecord>, token: string) {
    FindToken(rs, token).Some?
  }

  /** How many records carry exactly this token. */
  function CountToken(rs: seq<RefreshRecord>, token: string): (n: nat)
    ensures n <= |rs|
  {
    if rs == [] then 0 else (if rs[0].token == token then 1 else 0) + CountToken(rs[1..], token)
  }

  /** `refreshTokens.deleteOne({ token })`. */
  function DeleteOne(rs: seq<RefreshRecord>, token: string): (r: seq<RefreshRecord>)
    ensures HasToken(rs, token) ==> |r| == |rs| - 1 && multiset(r) + multiset{rs[FindToken(rs, token).value]} == multiset(rs)
    ensures !HasToken(rs, token) ==> r == rs
  {
    match FindToken(rs, token)
    case None => rs
    case Some(i) => Seqs.RemoveAt(rs, i)
  }

  lemma {:induction false} CountTokenConcat(a: seq<RefreshRecord>, b: seq<RefreshRecord>, token: string)
    ensures CountToken(a + b, token) == CountToken(a, token) + CountToken(b, token)
  {
    if a == [] {
      assert a + b == b;
    } else {
      assert (a + b)[1..] == a[1..] + b;
      CountTokenConcat(a[1..], b, token);
    }
  }

  /** A token is present exactly when it is counted at least once. */
  lemma {:induction false} HasTokenIffCounted(rs: seq<RefreshRecord>, token: string)
    ensures HasToken(rs, token) <==> CountToken(rs, token) > 0
  {
    if rs != [] {
      HasTokenIffCounted(rs[1..], token);
      if rs[0].token != token && HasToken(rs[1..], token) {
        var k := FindToken(rs[1..], token).value;
        assert rs[k + 1].token == token;
      }
    }
  }

  /** `deleteOne` removes at most one copy of the token and leaves every other token's count alone. */
  lemma DeleteOneCount(rs: seq<RefreshRecord>, token: string, other: string)
    ensures CountToken(DeleteOne(rs, token), token) == if CountToken(rs, token) > 0 then CountToken(rs, token) - 1 else 0
    ensures other != token ==> CountToken(DeleteOne(rs, token), other) == CountToken(rs, other)
  {
    HasTokenIffCounted(rs, token);
    if HasToken(rs, token) {
      var i := FindToken(rs, token).value;
      assert rs == rs[..i] + [rs[i]] + rs[i + 1..];
      CountTokenConcat(rs[..i] + [rs[i]], rs[i + 1..], token);
      CountTokenConcat(rs[..i], [rs[i]], token);
      CountTokenConcat(rs[..i], rs[i + 1..], token);
      CountTokenConcat(rs[..i] + [rs[i]], rs[i + 1..], other);
      CountTokenConcat(rs[..i], [rs[i]], other);
      CountTokenConcat(rs[..i], rs[i + 1..], other);
    }
  }

  /** Inserting a record adds one copy of its token, and a token that was present stays present. */
  lemma InsertCount(rs: seq<RefreshRecord>, rec: RefreshRecord, token: string)
    ensures CountToken(rs + [rec], token) == CountToken(rs, token) + (if rec.token == token then 1 else 0)
    ensures HasToken(rs + [rec], token) <==> HasToken(rs, token) || rec.token == token
  {
    CountTokenConcat(rs, [rec], token);
    HasTokenIffCounted(rs, token);
    HasTokenIffCounted(rs + [rec], token);
  }

  /** `users.findOne({ _id })`. */
  function FindUserById(users: seq<User>, id: ObjectId): (r: Option<nat>)
    ensures r.Some? ==> r.value < |users| && users[r.value].id == Some(id)
    ensures r.Some? ==> forall j :: 0 <= j < r.value ==> users[j].id != Some(id)
    ensures r.None? <==> forall j :: 0 <= j < |users| ==> users[j].id != Some(id)
  {
    Seqs.FirstIndex(users, (u: User) => u.id == Some(id))
  }

  /** `users.findOne({ email })`. */
  function FindUserByEmail(users: seq<User>, email: string): (r: Option<nat>)
    ensures r.Some? ==> r.value < |users| && users[r.value].email == email
    ensures r.Some? ==> forall j :: 0 <= j < r.value ==> users[j].email != email
    ensures r.None? <==> forall j :: 0 <= j < |users| ==> users[j].email != email
  {
    Seqs.FirstIndex(users, (u: User) => u.email == email)
  }

  /** `users.findOne({ email, password })`. */
  function FindUserByCredentials(users: seq<User>, email: string, password: string): (r: Option<nat>)
    ensures r.Some? ==> r.value < |users| && users[r.value].email == email && users[r.value].password == password
    ensures r.None? <==> forall j :: 0 <= j < |users| ==> !(users[j].email == email && users[j].password == password)
  {
    Seqs.FirstIndex(users, (u: User) => u.email == email && u.password == password)
  }

  /** The `_id` index: no two users share an id. */
  predicate UniqueIds(users: seq<User>) {
    forall i, j :: 0 <= i < j < |users| ==> users[i].id != users[j].id
  }

  /** The unique `email` index. */
  predicate UniqueEmails(users: seq<User>) {
    forall i, j :: 0 <= i < j < |users| ==> users[i].email != users[j].email
  }

  /** Two user lists that agree on every document's `_id` and `email`. */
  predicate SameKeys(a: seq<User>, b: seq<User>) {
    |a| == |b| && forall i :: 0 <= i < |a| ==> a[i].id == b[i].id && a[i].email == b[i].email
  }

  /** Changing one matched user's other fields keeps the keys. */
  lemma SameKeysUpdate(users: seq<User>, k: nat, u: User)
    requires k < |users| && u.id == users[k].id && u.email == users[k].email
    ensures SameKeys(users, users[k := u])
  {
  }

  /** With unique ids, the matched user is the only one with that id. */
  lemma UniqueIdMatch(users: seq<User>, id: ObjectId, j: nat)
    requires UniqueIds(users) && j < |users| && users[j].id == Some(id)
    ensures FindUserById(users, id) == Some(j)
  {
  }

  /** `findOne({ _id })` sees only the keys, so an update that keeps them finds the same document. */
  lemma FindUserByIdSameKeys(a: seq<User>, b: seq<User>, id: ObjectId)
    requires SameKeys(a, b)
    ensures FindUserById(a, id) == FindUserById(b, id)
  {
  }
}

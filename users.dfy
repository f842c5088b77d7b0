/**
  The `User` document of the users collection, its ObjectId, and what the
  collection's `find_one`, `insert_one` and `update_one` do to a sequence of
  documents kept in insertion order.
*/
module Users {
  import opened Wrappers

  newtype byte = b: int | 0 <= b < 0x100

  /** Rust's `i32`, the type of `failed_login_attempts`. */
  type i32 = x: int | -0x8000_0000 <= x < 0x8000_0000

  /** A MongoDB ObjectId: twelve bytes. */
  type ObjectId = s: seq<byte> | |s| == 12 witness [0, 0, 0, 0, 0, 0, 0, 0, 0, 0, 0, 0]

  datatype User = User(
    id: Option<ObjectId>,
    isAdmin: bool,
    username: string,
    email: string,
    password: string,
    failedLoginAttempts: i32)

  /** `x + 1` on an `i32` as a release build computes it: wrapping at the top. */
  function WrappingIncrement(x: i32): (r: i32)
    ensures (r - x - 1) % 0x1_0000_0000 == 0
    ensures x < 0x7FFF_FFFF ==> r == x + 1
  {
    if x == 0x7FFF_FFFF then -0x8000_0000 else x + 1
  }

  // ObjectId::to_hex: two lower-case hexadecimal digits per byte, high nibble first.

  predicate IsLowerHexDigit(c: char) {
    '0' <= c <= '9' || 'a' <= c <= 'f'
  }

  function HexDigit(n: nat): (c: char)
    requires n < 16
    ensures IsLowerHexDigit(c)
  {
    if n < 10 then ('0' as int + n) as char else ('a' as int + n - 10) as char
  }

  function HexValue(c: char): (n: nat)
    requires IsLowerHexDigit(c)
    ensures n < 16
    ensures HexDigit(n) == c
  {
    if c <= '9' then c as int - '0' as int else c as int - 'a' as int + 10
  }

  function ToHex(bytes: seq<byte>): (h: string)
    ensures |h| == 2 * |bytes|
    ensures forall k :: 0 <= k < |h| ==> IsLowerHexDigit(h[k])
  {
    if bytes == [] then ""
    else [HexDigit(bytes[0] as int / 16), HexDigit(bytes[0] as int % 16)] + ToHex(bytes[1..])
  }

  /** The inverse of `ToHex` (ObjectId::parse_str on the digits `to_hex` produces). */
  function FromHex(h: string): (bytes: seq<byte>)
    requires |h| % 2 == 0
    requires forall k :: 0 <= k < |h| ==> IsLowerHexDigit(h[k])
    ensures 2 * |bytes| == |h|
  {
    if h == "" then []
    else [(HexValue(h[0]) * 16 + HexValue(h[1])) as byte] + FromHex(h[2..])
  }

  lemma {:induction false} FromHexToHex(bytes: seq<byte>)
    ensures FromHex(ToHex(bytes)) == bytes
  {
    if bytes != [] {
      var b := bytes[0] as int;
      var h := ToHex(bytes);
      assert h[2..] == ToHex(bytes[1..]);
      assert HexValue(h[0]) == b / 16 && HexValue(h[1]) == b % 16 by {
        assert h[0] == HexDigit(b / 16) && h[1] == HexDigit(b % 16);
      }
      FromHexToHex(bytes[1..]);
    }
  }

  /** The `id` claim is 24 hexadecimal digits and tells ObjectIds apart. */
  lemma ObjectIdHex(a: ObjectId, b: ObjectId)
    ensures |ToHex(a)| == 24
    ensures ToHex(a) == ToHex(b) <==> a == b
  {
    FromHexToHex(a);
    FromHexToHex(b);
  }

  /** The query documents the handlers send. */
  datatype Filter =
    | ByEmail(email: string)                 // { "email": e }
    | ByUsername(username: string)           // { "username": n }
    | ByUsernameOrEmail(identifier: string)  // { "$or": [{ "username": x }, { "email": x }] }
    | ById(id: ObjectId)                     // { "_id": id }

  /** Exact, case-sensitive equality on the named fields. */
  predicate Matches(f: Filter, u: User) {
    match f
    case ByEmail(e) => u.email == e
    case ByUsername(n) => u.username == n
    case ByUsernameOrEmail(x) => u.username == x || u.email == x
    case ById(id) => u.id == Some(id)
  }

  /** The position of the document `find_one` returns: the first match in stored order. */
  function FirstIndex(users: seq<User>, f: Filter): (r: Option<nat>)
    ensures r.Some? ==>
      && r.value < |users| && Matches(f, users[r.value])
      && forall j :: 0 <= j < r.value ==> !Matches(f, users[j])
    ensures r.None? <==> forall j :: 0 <= j < |users| ==> !Matches(f, users[j])
  {
    if users == [] then None
    else if Matches(f, users[0]) then Some(0)
    else match FirstIndex(users[1..], f)
      case None => None
      case Some(k) => Some(k + 1)
  }

  predicate IdTaken(users: seq<User>, id: ObjectId) {
    exists k :: 0 <= k < |users| && users[k].id == Some(id)
  }

  /** The `_id` insert_one stores: the document's own, else the one the driver generated. */
  function AssignedId(doc: User, generated: ObjectId): ObjectId {
    if doc.id.Some? then doc.id.value else generated
  }

  /**
    insert_one: appends the document under its `_id`; an `_id` that is
    already stored is a duplicate-key error (None) and changes nothing.
  */
  function InsertDoc(users: seq<User>, doc: User, generated: ObjectId): (r: Option<seq<User>>)
    ensures r.None? <==> IdTaken(users, AssignedId(doc, generated))
    ensures r.Some? ==> r.value == users + [doc.(id := Some(AssignedId(doc, generated)))]
  {
    var id := AssignedId(doc, generated);
    if FirstIndex(users, ById(id)).Some? then None
    else Some(users + [doc.(id := Some(id))])
  }

  /**
    update_one with `{ "_id": id }` and `{ "$set": { "failed_login_attempts": n } }`:
    the counter of the first document with that id becomes `n`; nothing else
    changes, and no match changes nothing.
  */
  function SetAttempts(users: seq<User>, id: ObjectId, n: i32): (r: seq<User>)
    ensures |r| == |users|
    ensures forall k :: 0 <= k < |users| ==>
      r[k] == users[k] || (users[k].id == Some(id) && r[k] == users[k].(failedLoginAttempts := n))
    ensures !IdTaken(users, id) ==> r == users
  {
    match FirstIndex(users, ById(id))
    case None => users
    case Some(i) => users[i := users[i].(failedLoginAttempts := n)]
  }

  /** The unique `_id` index every collection has. */
  ghost predicate IdsUnique(users: seq<User>) {
    forall k, l :: 0 <= k < l < |users| && users[k].id.Some? ==> users[k].id != users[l].id
  }

  /** With unique ids the update reaches exactly the document that carries the id. */
  lemma SetAttemptsAt(users: seq<User>, i: nat, n: i32)
    requires IdsUnique(users)
    requires i < |users| && users[i].id.Some?
    ensures SetAttempts(users, users[i].id.value, n) == users[i := users[i].(failedLoginAttempts := n)]
  {
    assert FirstIndex(users, ById(users[i].id.value)) == Some(i);
  }

  /**
    `find_one` does not look at the counter: changing one document's counter
    leaves every search result where it was.
  */
  lemma {:induction false} FirstIndexIgnoresCounter(users: seq<User>, i: nat, n: i32, f: Filter)
    requires i < |users|
    ensures FirstIndex(users[i := users[i].(failedLoginAttempts := n)], f) == FirstIndex(users, f)
  {
    var changed := users[i := users[i].(failedLoginAttempts := n)];
    if i > 0 {
      assert changed[1..] == users[1..][i - 1 := users[i].(failedLoginAttempts := n)];
      FirstIndexIgnoresCounter(users[1..], i - 1, n, f);
    }
  }
}

/** The user records the screen holds, and the two list computations its
    handlers apply to them: the `map` that merges the form into every record
    with a given id, and the `filter` that drops every record with a given id. */
module Users {

  /** A server-assigned identifier. The server's JSON may carry a number or a
      string; equality of this datatype is JavaScript's `===` on those two kinds
      (a number never equals a string). */
  datatype Id = Num(n: int) | Str(s: string)

  /** JavaScript truthiness of an identifier: `0` and `''` are falsy, every
      other number and string is truthy. */
  predicate Truthy(id: Id) {
    match id
    case Num(n) => n != 0
    case Str(s) => s != ""
  }

  /** The three form values, as the object `{ name, email, password }` that is
      sent to the server and spread into a record. */
  datatype Fields = Fields(name: string, email: string, password: string)

  /** The empty form. */
  const NoFields := Fields("", "", "")

  /** A user record as the server returns it. `rest` stands for every other
      property of the record, kept as received. */
  datatype User = User(id: Id, name: string, email: string, password: string, rest: map<string, string>)
  {
    /** The three properties the form edits. */
    function FormFields(): Fields {
      Fields(name, email, password)
    }
  }

  /** `{ ...user, ...edited }`: the record's own properties, with the three
      form properties overwritten. */
  function Merge(u: User, f: Fields): User {
    u.(name := f.name, email := f.email, password := f.password)
  }

  /** Ids are assigned by the server and the screen never checks that they are
      unique; a lemma that relies on uniqueness says so with this predicate. */
  ghost predicate UniqueIds(users: seq<User>) {
    forall i, j :: 0 <= i < j < |users| ==> users[i].id != users[j].id
  }

  /** `users.map(user => user.id === id ? { ...user, ...f } : user)`:
      same length and order, matching records take the form values and keep
      their id and other properties, the others are untouched. */
  function MergeById(users: seq<User>, id: Id, f: Fields): (r: seq<User>)
    ensures |r| == |users|
    ensures forall i :: 0 <= i < |users| ==> r[i].id == users[i].id && r[i].rest == users[i].rest
    ensures forall i :: 0 <= i < |users| && users[i].id == id ==> r[i].FormFields() == f
    ensures forall i :: 0 <= i < |users| && users[i].id != id ==> r[i] == users[i]
  {
    if users == [] then []
    else (if users[0].id == id then [Merge(users[0], f)] else [users[0]]) + MergeById(users[1..], id, f)
  }

  /** `users.filter(user => user.id !== id)`: exactly the records whose id
      differs are kept. Their order is the subject of RemoveByIdAppend. */
  function RemoveById(users: seq<User>, id: Id): (r: seq<User>)
    ensures |r| <= |users|
    ensures forall u :: u in r <==> u in users && u.id != id
  {
    if users == [] then []
    else (if users[0].id == id then [] else [users[0]]) + RemoveById(users[1..], id)
  }

  /** Filtering distributes over concatenation: the kept records stay in their
      original relative order. Together with the membership property of
      RemoveById on a one-record list, this pins the result down exactly. */
  lemma {:induction false} RemoveByIdAppend(a: seq<User>, b: seq<User>, id: Id)
    ensures RemoveById(a + b, id) == RemoveById(a, id) + RemoveById(b, id)
  {
    if a == [] {
      assert a + b == b;
    } else {
      assert (a + b)[1..] == a[1..] + b;
      RemoveByIdAppend(a[1..], b, id);
    }
  }

  /** Deleting an id no record carries leaves the list as it was. */
  lemma {:induction false} RemoveByIdAbsent(users: seq<User>, id: Id)
    requires forall u :: u in users ==> u.id != id
    ensures RemoveById(users, id) == users
  {
    if users != [] {
      assert users[0] in users;
      RemoveByIdAbsent(users[1..], id);
    }
  }

  /** Deleting twice is deleting once. */
  lemma RemoveByIdIdempotent(users: seq<User>, id: Id)
    ensures RemoveById(RemoveById(users, id), id) == RemoveById(users, id)
  {
    RemoveByIdAbsent(RemoveById(users, id), id);
  }

  /** With server-unique ids, a delete removes exactly one record when the id
      is present, and none when it is absent. */
  lemma {:induction false} RemoveByIdUniqueLength(users: seq<User>, id: Id)
    requires UniqueIds(users)
    ensures |RemoveById(users, id)| == if exists u :: u in users && u.id == id then |users| - 1 else |users|
  {
    if users == [] {
    } else {
      var tail := users[1..];
      assert UniqueIds(tail) by {
        forall i, j | 0 <= i < j < |tail| ensures tail[i].id != tail[j].id {
          assert tail[i] == users[i + 1] && tail[j] == users[j + 1];
        }
      }
      RemoveByIdUniqueLength(tail, id);
      if users[0].id == id {
        forall u | u in tail ensures u.id != id {
          var k :| 0 <= k < |tail| && tail[k] == u;
          assert users[k + 1] == u;
        }
        RemoveByIdAbsent(tail, id);
      } else {
        assert (exists u :: u in users && u.id == id) <==> (exists u :: u in tail && u.id == id) by {
          forall u | u in users && u.id == id ensures u in tail {
            var k :| 0 <= k < |users| && users[k] == u;
            assert k != 0;
            assert tail[k - 1] == u;
          }
          forall u | u in tail ensures u in users {
            var k :| 0 <= k < |tail| && tail[k] == u;
            assert users[k + 1] == u;
          }
        }
      }
    }
  }

  /** Merging is idempotent: submitting the same edit twice changes nothing
      the second time. */
  lemma MergeByIdIdempotent(users: seq<User>, id: Id, f: Fields)
    ensures MergeById(MergeById(users, id, f), id, f) == MergeById(users, id, f)
  {
  }

  /** Editing an id no record carries leaves the list as it was; this is the
      case of a record deleted while it was loaded into the form. */
  lemma MergeByIdAbsent(users: seq<User>, id: Id, f: Fields)
    requires forall u :: u in users ==> u.id != id
    ensures MergeById(users, id, f) == users
  {
  }

  /** An edit and a delete commute, whatever the two ids: the list reached is
      the same in either order. */
  lemma {:induction false} MergeRemoveCommute(users: seq<User>, edited: Id, f: Fields, deleted: Id)
    ensures RemoveById(MergeById(users, edited, f), deleted) == MergeById(RemoveById(users, deleted), edited, f)
  {
    if users != [] {
      var m := MergeById(users, edited, f);
      assert m[1..] == MergeById(users[1..], edited, f);
      assert m[0].id == users[0].id;
      MergeRemoveCommute(users[1..], edited, f, deleted);
      var kept := if users[0].id == deleted then [] else [users[0]];
      MergeByIdAppendSplit(kept, RemoveById(users[1..], deleted), edited, f);
    }
  }

  /** A merge over a concatenation is the concatenation of the merges. */
  lemma MergeByIdAppendSplit(a: seq<User>, b: seq<User>, id: Id, f: Fields)
    ensures MergeById(a + b, id, f) == MergeById(a, id, f) + MergeById(b, id, f)
  {
  }

  /** After a delete, an edit of the same id finds nothing to change. */
  lemma EditAfterDeleteIsNoOp(users: seq<User>, id: Id, f: Fields)
    ensures MergeById(RemoveById(users, id), id, f) == RemoveById(users, id)
  {
  }

  /** Loading a record into the form and submitting it unchanged leaves the
      list as it was, provided the ids are unique. */
  lemma ResubmitUnchangedIsNoOp(users: seq<User>, u: User)
    requires UniqueIds(users) && u in users
    ensures MergeById(users, u.id, u.FormFields()) == users
  {
  }
}

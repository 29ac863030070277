/** The service layer (service/UserServiceImpl.java) over the document store. The repository is
    a Spring Data interface with no code of its own; it is modelled as a map from a document's
    id to the document, with insert-or-replace `save` and delete-by-id. */
module UserService {
  import opened Wrappers
  import opened Entities

  /** Each stored document sits under its own id, as a document store keyed by `@Id` keeps it. */
  ghost predicate Keyed(store: map<Long, User>)
  {
    forall k :: k in store ==> store[k].id == Some(k)
  }

  /** In a keyed store distinct ids hold distinct documents, so there are as many documents as
      ids. */
  lemma {:induction false} KeyedValuesCount(store: map<Long, User>)
    ensures Keyed(store) ==> |store.Values| == |store|
    decreases |store|
  {
    if store != map[] && Keyed(store) {
      var k :| k in store;
      var rest := store - {k};
      KeyedValuesCount(rest);
      forall u | u in store.Values ensures u in rest.Values + {store[k]} {
        var j :| j in store && store[j] == u;
        if j != k { assert rest[j] == u; }
      }
      assert store.Values == rest.Values + {store[k]};
      assert store[k] !in rest.Values;
      assert |store| == |rest| + 1;
    }
  }

  class UserServiceImpl {
    /** The repository's contents. */
    var store: map<Long, User>

    ghost predicate Valid()
      reads this
    {
      Keyed(store)
    }

    constructor (initial: map<Long, User>)
      requires Keyed(initial)
      ensures Valid() && store == initial
    {
      store := initial;
    }

    /** `getAlluser`: exactly the stored documents, one per stored id. */
    function GetAllUser(): (r: set<User>)
      reads this
      ensures forall u :: u in r <==> exists k :: k in store && store[k] == u
      ensures Valid() ==> |r| == |store|
    {
      KeyedValuesCount(store);
      store.Values
    }

    /** `getUserById`: the document stored under `id`, or null when there is none. */
    function GetUserById(id: Long): (r: Option<User>)
      reads this
      ensures r.Some? <==> id in store
      ensures r.Some? ==> r.value == store[id]
    {
      if id in store then Some(store[id]) else None
    }

    /** `saveUser`: stores `user` under its id, replacing any document with that id, and
        returns it. */
    method SaveUser(user: User) returns (saved: User)
      requires Valid() && user.id.Some?
      modifies this
      ensures Valid() && saved == user
      ensures store == old(store)[user.id.value := user]
      ensures GetUserById(user.id.value) == Some(user)
      ensures forall k :: k != user.id.value ==> GetUserById(k) == old(GetUserById(k))
    {
      store := store[user.id.value := user];
      saved := user;
    }

    /** `deleteUser`: removes the document stored under `user`'s id, if any. */
    method DeleteUser(user: User)
      requires Valid() && user.id.Some?
      modifies this
      ensures Valid()
      ensures store == old(store) - {user.id.value}
      ensures GetUserById(user.id.value) == None
      ensures forall k :: k != user.id.value ==> GetUserById(k) == old(GetUserById(k))
    {
      store := store - {user.id.value};
    }
  }
}

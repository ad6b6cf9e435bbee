/** Per-user write grants on the export bucket: the user -> prefixes index
    that both push.py and __main__.py accumulate over dataset configs, and an
    independent reference definition of what it should hold. */
module Grants {
  import opened Dicts

  /** What one dataset contributes to the index: its name (the prefix the
      user may write to) and the users it lists, in listed order. */
  datatype Listing = Listing(name: string, users: seq<string>)

  type UserIndex = Dict<string, seq<string>>

  /** `for user in users: index[user].append(name)` */
  function AddUsers(d: UserIndex, name: string, users: seq<string>): UserIndex
    decreases |users|
  {
    if users == [] then d
    else Append(AddUsers(d, name, users[..|users| - 1]), users[|users| - 1], name)
  }

  /** The index built over a sequence of datasets in load order. */
  function IndexUsers(ls: seq<Listing>): UserIndex
  {
    if ls == [] then Empty()
    else
      var last := ls[|ls| - 1];
      AddUsers(IndexUsers(ls[..|ls| - 1]), last.name, last.users)
  }

  // Reference definitions.

  function Count(s: seq<string>, x: string): nat
  {
    if s == [] then 0
    else Count(s[..|s| - 1], x) + (if s[|s| - 1] == x then 1 else 0)
  }

  function Repeat(x: string, n: nat): seq<string>
  {
    if n == 0 then [] else Repeat(x, n - 1) + [x]
  }

  /** Every user listed, dataset by dataset, with repetitions. */
  function AllUsers(ls: seq<Listing>): seq<string>
  {
    if ls == [] then [] else AllUsers(ls[..|ls| - 1]) + ls[|ls| - 1].users
  }

  /** The names of the datasets listing `u`, in load order, once per time
      each dataset lists `u`. */
  function PrefixesOf(ls: seq<Listing>, u: string): seq<string>
  {
    if ls == [] then []
    else
      var last := ls[|ls| - 1];
      PrefixesOf(ls[..|ls| - 1], u) + Repeat(last.name, Count(last.users, u))
  }

  lemma {:induction false} AddUsersSpec(d: UserIndex, name: string, users: seq<string>)
    requires Valid(d)
    ensures Valid(AddUsers(d, name, users))
    ensures AddUsers(d, name, users).keys == Extend(d.keys, users)
    ensures forall u :: GetOr(AddUsers(d, name, users), u, []) == GetOr(d, u, []) + Repeat(name, Count(users, u))
    decreases |users|
  {
    if users != [] {
      var init := users[..|users| - 1];
      var x := users[|users| - 1];
      assert users == init + [x];
      AddUsersSpec(d, name, init);
      var d' := AddUsers(d, name, init);
      assert AddUsers(d, name, users) == Append(d', x, name);
      assert x in d'.items <==> x in d'.keys;
      forall u
        ensures GetOr(AddUsers(d, name, users), u, []) == GetOr(d, u, []) + Repeat(name, Count(users, u))
      {
        AppendOneMore(d, d', name, init, x, u);
      }
    }
  }

  /** One more mention of `x` adds one more `name` to `x`'s list only. */
  lemma AppendOneMore(d: UserIndex, d': UserIndex, name: string, init: seq<string>, x: string, u: string)
    requires GetOr(d', u, []) == GetOr(d, u, []) + Repeat(name, Count(init, u))
    ensures GetOr(Append(d', x, name), u, []) == GetOr(d, u, []) + Repeat(name, Count(init + [x], u))
  {
    assert (init + [x])[..|init + [x]| - 1] == init;
    assert Count(init + [x], u) == Count(init, u) + (if x == u then 1 else 0);
  }

  /** The index lists each user once, in order of first mention, and maps
      each to the dataset names that list it, one entry per mention. */
  lemma {:induction false} IndexUsersSpec(ls: seq<Listing>)
    ensures Valid(IndexUsers(ls))
    ensures IndexUsers(ls).keys == Dedup(AllUsers(ls))
    ensures forall u :: u in IndexUsers(ls).items <==> u in AllUsers(ls)
    ensures forall u :: GetOr(IndexUsers(ls), u, []) == PrefixesOf(ls, u)
  {
    if ls != [] {
      var init := ls[..|ls| - 1];
      var last := ls[|ls| - 1];
      IndexUsersSpec(init);
      AddUsersSpec(IndexUsers(init), last.name, last.users);
      ExtendConcat([], AllUsers(init), last.users);
      ExtendMembers([], AllUsers(ls));
    }
  }

  /** One index entry per distinct user: the count is the number of distinct
      users, however many datasets name each of them. */
  lemma IndexUsersCount(ls: seq<Listing>)
    ensures |IndexUsers(ls).keys| == |set u | u in AllUsers(ls)|
  {
    IndexUsersSpec(ls);
    DedupSpec(AllUsers(ls));
  }
}

/** The hardware library seen as abstract tables. A flow table is a multiset of
    entries; every entry carries the cookie under which it can be removed. Cookie
    deletion removes every entry with that cookie, and an addition may fail. */
module FlowTable {

  datatype Flow<B> = Flow(cookie: nat, body: B)

  /** The table without the entries whose cookie is `c`. */
  ghost function Without<B(!new)>(t: multiset<Flow<B>>, c: nat): multiset<Flow<B>>
    decreases |t|
  {
    if exists f :: f in t && f.cookie == c then
      var f :| f in t && f.cookie == c;
      Without(t - multiset{f}, c)
    else
      t
  }

  /** Cookie deletion, entry by entry. */
  lemma {:induction false} WithoutAt<B(!new)>(t: multiset<Flow<B>>, c: nat)
    ensures forall f :: Without(t, c)[f] == if f.cookie == c then 0 else t[f]
    decreases |t|
  {
    if exists f :: f in t && f.cookie == c {
      var g :| g in t && g.cookie == c && Without(t, c) == Without(t - multiset{g}, c);
      WithoutAt(t - multiset{g}, c);
    }
  }

  ghost predicate HasCookie<B(!new)>(t: multiset<Flow<B>>, c: nat) {
    exists f :: f in t && f.cookie == c
  }

  /** Deleting a cookie changes nothing exactly when no entry carries it. */
  lemma WithoutIdentity<B(!new)>(t: multiset<Flow<B>>, c: nat)
    ensures Without(t, c) == t <==> !HasCookie(t, c)
  {
    WithoutAt(t, c);
    if HasCookie(t, c) {
      var f :| f in t && f.cookie == c;
      assert Without(t, c)[f] == 0 != t[f];
    } else {
      assert forall f :: Without(t, c)[f] == t[f];
    }
  }

  /** Adding an entry and deleting its cookie is the same as deleting the cookie. */
  lemma WithoutAdded<B(!new)>(t: multiset<Flow<B>>, f: Flow<B>)
    ensures Without(t + multiset{f}, f.cookie) == Without(t, f.cookie)
  {
    WithoutAt(t, f.cookie);
    WithoutAt(t + multiset{f}, f.cookie);
    assert forall g :: Without(t + multiset{f}, f.cookie)[g] == Without(t, f.cookie)[g];
  }

  /** Deleting another cookie keeps an added entry. */
  lemma WithoutOther<B(!new)>(t: multiset<Flow<B>>, f: Flow<B>, c: nat)
    requires f.cookie != c
    ensures Without(t + multiset{f}, c) == Without(t, c) + multiset{f}
  {
    WithoutAt(t, c);
    WithoutAt(t + multiset{f}, c);
    assert forall g :: Without(t + multiset{f}, c)[g] == (Without(t, c) + multiset{f})[g];
  }

  lemma WithoutCommutes<B(!new)>(t: multiset<Flow<B>>, c: nat, d: nat)
    ensures Without(Without(t, c), d) == Without(Without(t, d), c)
  {
    WithoutAt(t, c);
    WithoutAt(t, d);
    WithoutAt(Without(t, c), d);
    WithoutAt(Without(t, d), c);
    assert forall g :: Without(Without(t, c), d)[g] == Without(Without(t, d), c)[g];
  }

  /** One hardware flow table. The `fails` argument stands for the library's answer. */
  class Table<B(==,!new)> {
    var entries: multiset<Flow<B>>

    constructor ()
      ensures entries == multiset{}
    {
      entries := multiset{};
    }

    method Add(f: Flow<B>, fails: bool) returns (err: bool)
      modifies this
      ensures err == fails
      ensures entries == if fails then old(entries) else old(entries) + multiset{f}
    {
      err := fails;
      if !fails {
        entries := entries + multiset{f};
      }
    }

    method CookieDelete(c: nat, fails: bool) returns (err: bool)
      modifies this
      ensures err == fails
      ensures entries == if fails then old(entries) else Without(old(entries), c)
    {
      err := fails;
      if !fails {
        WithoutAt(entries, c);
        var kept: multiset<Flow<B>> := multiset{};
        var rest := entries;
        while |rest| > 0
          invariant entries == old(entries)
          invariant forall f :: kept[f] + (if f.cookie == c then 0 else rest[f]) == Without(entries, c)[f]
          decreases |rest|
        {
          var f :| f in rest;
          if f.cookie != c {
            kept := kept + multiset{f};
          }
          rest := rest - multiset{f};
        }
        assert forall f :: kept[f] == Without(entries, c)[f];
        entries := kept;
      }
    }
  }
}

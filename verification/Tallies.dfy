/** Counts per name in order of first appearance: a dictionary that is bumped and then listed. */
module Tallies {
  import opened Prelude

  datatype Entry = Entry(name: string, count: nat)

  type Tally = seq<Entry>

  function Bump(t: Tally, name: string, k: nat): Tally {
    if t == [] then [Entry(name, k)]
    else if t[0].name == name then [Entry(name, t[0].count + k)] + t[1..]
    else [t[0]] + Bump(t[1..], name, k)
  }

  function CountOf(t: Tally, name: string): nat {
    if t == [] then 0 else if t[0].name == name then t[0].count else CountOf(t[1..], name)
  }

  function Total(t: Tally): nat {
    if t == [] then 0 else t[0].count + Total(t[1..])
  }

  function Names(t: Tally): seq<string> {
    seq(|t|, i requires 0 <= i < |t| => t[i].name)
  }

  /** A bump adds its amount to one name and to the total, and to nothing else. */
  lemma BumpAdds(t: Tally, name: string, k: nat)
    ensures Total(Bump(t, name, k)) == Total(t) + k
    ensures forall other :: CountOf(Bump(t, name, k), other) == CountOf(t, other) + if other == name then k else 0
  {
    if t != [] {
      assert ([t[0]] + Bump(t[1..], name, k))[1..] == Bump(t[1..], name, k);
      assert ([Entry(name, t[0].count + k)] + t[1..])[1..] == t[1..];
    }
  }

  lemma NamesCons(e: Entry, t: Tally)
    ensures Names([e] + t) == [e.name] + Names(t)
  {}

  lemma {:induction false} BumpKeepsNames(t: Tally, name: string, k: nat)
    ensures Names(Bump(t, name, k)) == if name in Names(t) then Names(t) else Names(t) + [name]
  {
    if t != [] && t[0].name != name {
      BumpKeepsNames(t[1..], name, k);
      assert t == [t[0]] + t[1..];
      NamesCons(t[0], t[1..]);
      NamesCons(t[0], Bump(t[1..], name, k));
    } else if t != [] {
      assert Names(t)[0] == name;
    }
  }

  /** Overwrites one count, adding the name at the end if it is new. */
  function Set(t: Tally, name: string, k: nat): Tally {
    if t == [] then [Entry(name, k)]
    else if t[0].name == name then [Entry(name, k)] + t[1..]
    else [t[0]] + Set(t[1..], name, k)
  }

  lemma SetCounts(t: Tally, name: string, k: nat)
    ensures forall other :: CountOf(Set(t, name, k), other) == if other == name then k else CountOf(t, other)
  {
    if t != [] {
      assert ([t[0]] + Set(t[1..], name, k))[1..] == Set(t[1..], name, k);
      assert ([Entry(name, k)] + t[1..])[1..] == t[1..];
    }
  }
}

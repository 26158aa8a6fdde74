/** The active pool, the failure receipts and directory listings as the operator transactions see them. */
module PoolFiles {
  import opened QuarantineLedger

  /** A failure receipt; `authFile` is empty when the receipt cannot be read. */
  datatype Receipt<C> = Receipt(authFile: string, body: C)

  predicate IsJson(name: string) {
    |name| >= 5 && name[|name| - 5..] == ".json"
  }

  /** A JSON file's name is any name with the suffix after it. */
  lemma IsJsonIff(name: string)
    ensures IsJson(name) <==> exists stem :: name == stem + ['.', 'j', 's', 'o', 'n']
  {
    if IsJson(name) {
      assert name == name[..|name| - 5] + ['.', 'j', 's', 'o', 'n'];
    }
  }

  /** The credentials at the top of the auth tree. */
  function ActivePool<C>(auth: map<Rel, C>): set<string> {
    set k | k in auth.Keys && |k| == 1 && IsJson(k[0]) :: k[0]
  }

  lemma PoolMember<C>(auth: map<Rel, C>, n: string)
    ensures n in ActivePool(auth) <==> [n] in auth && IsJson(n)
  {
    forall k: Rel | |k| == 1 ensures k == [k[0]] {}
    if [n] in auth && IsJson(n) {
      assert [n][0] == n;
    }
  }

  function JsonKeys<T>(m: map<string, T>): set<string> {
    set k | k in m.Keys && IsJson(k)
  }

  /** A listing gives the names of a directory in whatever order. */
  ghost predicate Lists(s: seq<string>, names: set<string>) {
    forall n :: n in s <==> n in names
  }
}

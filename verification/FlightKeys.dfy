/**
 When two partitions share a key of the single-flight map. The key is the names joined by
 slashes, so partitions whose names contain slashes can block each other.
 */
module FlightKeys {
  import opened Dispatch

  /** strings.Split at slashes. */
  function Slashed(s: string): (r: seq<string>)
    ensures |r| >= 1
  {
    if s == "" then [""]
    else
      var rest := Slashed(s[1..]);
      if s[0] == '/' then [""] + rest else [[s[0]] + rest[0]] + rest[1..]
  }

  lemma {:induction false} SlashedCat(a: string, b: string)
    ensures Slashed(a + "/" + b) == Slashed(a) + Slashed(b)
  {
    var s := a + "/" + b;
    if a == "" {
      assert s[1..] == b;
    } else {
      assert s[1..] == a[1..] + "/" + b;
      SlashedCat(a[1..], b);
    }
  }

  lemma {:induction false} SlashedInjective(a: string, b: string)
    requires Slashed(a) == Slashed(b)
    ensures a == b
  {
    if a != "" && b != "" {
      var r, q := Slashed(a[1..]), Slashed(b[1..]);
      assert a[0] == b[0] && r == q by {
        HeadDecides(a, b);
      }
      SlashedInjective(a[1..], b[1..]);
    } else if a != "" {
      NotEmpty(a);
    } else if b != "" {
      NotEmpty(b);
    }
  }

  lemma NotEmpty(a: string)
    requires a != ""
    ensures Slashed(a) != [""]
  {
    assert |Slashed(a)| == 1 ==> Slashed(a)[0] != "";
  }

  /** The first part tells whether the text starts with a slash, and what it starts with otherwise. */
  lemma FirstPart(a: string)
    requires a != ""
    ensures a[0] == '/' ==> Slashed(a)[0] == "" && Slashed(a)[1..] == Slashed(a[1..])
    ensures a[0] != '/' ==> |Slashed(a)[0]| > 0 && Slashed(a)[0][0] == a[0]
                            && [Slashed(a)[0][1..]] + Slashed(a)[1..] == Slashed(a[1..])
  {
    var rest := Slashed(a[1..]);
    assert [rest[0]] + rest[1..] == rest;
  }

  lemma HeadDecides(a: string, b: string)
    requires a != "" && b != "" && Slashed(a) == Slashed(b)
    ensures a[0] == b[0] && Slashed(a[1..]) == Slashed(b[1..])
  {
    FirstPart(a);
    FirstPart(b);
  }

  /** The four names, each cut at its slashes, in one list. */
  function Parts(v: Verdict): seq<string> {
    Slashed(v.node) + Slashed(v.database) + Slashed(v.table) + Slashed(v.partition)
  }

  lemma KeyParts(v: Verdict)
    ensures Slashed(FlightKey(v)) == Parts(v)
  {
    SlashedCat(v.node, v.database);
    SlashedCat(v.node + "/" + v.database, v.table);
    SlashedCat(v.node + "/" + v.database + "/" + v.table, v.partition);
  }

  /** Two partitions share a key exactly when their names run through the same parts. */
  lemma KeysAgreeExactly(v: Verdict, w: Verdict)
    ensures FlightKey(v) == FlightKey(w) <==> Parts(v) == Parts(w)
  {
    KeyParts(v);
    KeyParts(w);
    if Parts(v) == Parts(w) {
      SlashedInjective(FlightKey(v), FlightKey(w));
    }
  }

  lemma {:induction false} Unslashed(s: string)
    requires '/' !in s
    ensures Slashed(s) == [s]
  {
    if s != "" {
      assert forall c :: c in s[1..] ==> c in s;
      Unslashed(s[1..]);
      assert [s[0]] + s[1..] == s && s[0] in s;
    }
  }

  /** Without slashes in node, database and table names the key belongs to one partition. */
  lemma KeysSeparate(v: Verdict, w: Verdict)
    requires '/' !in v.node + v.database + v.table && '/' !in w.node + w.database + w.table
    ensures FlightKey(v) == FlightKey(w)
       <==> v.node == w.node && v.database == w.database && v.table == w.table && v.partition == w.partition
  {
    NoSlashes(v);
    NoSlashes(w);
    KeysAgreeExactly(v, w);
    if Parts(v) == Parts(w) {
      assert Parts(v)[0] == Parts(w)[0] && Parts(v)[1] == Parts(w)[1] && Parts(v)[2] == Parts(w)[2];
      assert Parts(v)[3..] == Parts(w)[3..];
      SlashedInjective(v.partition, w.partition);
    }
  }

  lemma NoSlashes(v: Verdict)
    requires '/' !in v.node + v.database + v.table
    ensures Parts(v) == [v.node, v.database, v.table] + Slashed(v.partition)
    ensures Parts(v)[3..] == Slashed(v.partition)
  {
    assert forall c :: c in v.node || c in v.database || c in v.table ==> c in v.node + v.database + v.table;
    Unslashed(v.node);
    Unslashed(v.database);
    Unslashed(v.table);
  }

  /** Two tables of one node, so that a leg of the one keeps the other from starting. */
  lemma SlashesCollide(partition: string, decision: Decision, bytes: uint64)
    ensures FlightKey(Verdict("n", "a/b", "c", partition, decision, bytes))
         == FlightKey(Verdict("n", "a", "b/c", partition, decision, bytes))
  {
    assert "n" + "/" + "a/b" + "/" + "c" == "n" + "/" + "a" + "/" + "b/c";
  }
}

/** Network names and EIP-155 chain ids: the configuration check (`internal/config/chain.go`), the observation
    export (`internal/walletobservation/export.go`) and the scan detail (`chainIDsForNetworks`). */
module ChainIds {
  import opened Domain
  import opened Address

  datatype Blockchain = Blockchain(name: string, chainId: int)

  /** The entry at `i` has a name that is not blank and a positive id, neither of them used before. */
  ghost predicate Fits(chains: seq<Blockchain>, i: int)
    requires 0 <= i < |chains|
  {
    && Trim(chains[i].name) != "" && chains[i].chainId > 0
    && forall j :: 0 <= j < i ==> Trim(chains[j].name) != Trim(chains[i].name) && chains[j].chainId != chains[i].chainId
  }

  /** What `Validate` promises. */
  ghost predicate Acceptable(chains: seq<Blockchain>) {
    forall i :: 0 <= i < |chains| ==> Fits(chains, i)
  }

  method Validate(chains: seq<Blockchain>) returns (ok: bool)
    ensures ok <==> Acceptable(chains)
  {
    var seenName: set<string> := {};
    var seenChain: map<int, string> := map[];
    for i := 0 to |chains|
      invariant forall j :: 0 <= j < i ==> Fits(chains, j)
      invariant forall n :: n in seenName <==> exists j :: 0 <= j < i && Trim(chains[j].name) == n
      invariant forall c :: c in seenChain <==> exists j :: 0 <= j < i && chains[j].chainId == c
    {
      var name := Trim(chains[i].name);
      assert Acceptable(chains) ==> Fits(chains, i);
      if name == "" || name in seenName {
        return false;
      }
      seenName := seenName + {name};
      if chains[i].chainId <= 0 || chains[i].chainId in seenChain {
        return false;
      }
      seenChain := seenChain[chains[i].chainId := name];
    }
    ok := true;
  }

  /** `ChainIDByNetwork`. Names are not trimmed here; on a repeated name the last positive id wins. */
  function ByNetwork(chains: seq<Blockchain>): map<string, int> {
    if chains == [] then map[]
    else
      var rest, b := ByNetwork(chains[..|chains| - 1]), chains[|chains| - 1];
      if b.chainId > 0 then rest[b.name := b.chainId] else rest
  }

  method ChainIDByNetwork(chains: seq<Blockchain>) returns (m: map<string, int>)
    ensures m == ByNetwork(chains)
  {
    m := map[];
    for i := 0 to |chains|
      invariant m == ByNetwork(chains[..i])
    {
      assert chains[..i + 1][..i] == chains[..i];
      if chains[i].chainId > 0 {
        m := m[chains[i].name := chains[i].chainId];
      }
    }
    assert chains[..|chains|] == chains;
  }

  /** For any list at all: exactly the names with a positive id are mapped, each to its last one. */
  lemma {:induction false} LastPositiveWins(chains: seq<Blockchain>, i: int)
    requires 0 <= i < |chains| && chains[i].chainId > 0
    requires forall j :: i < j < |chains| && chains[j].name == chains[i].name ==> chains[j].chainId <= 0
    ensures chains[i].name in ByNetwork(chains) && ByNetwork(chains)[chains[i].name] == chains[i].chainId
    ensures forall n :: n in ByNetwork(chains) ==> exists j :: Named(chains, j, n) && chains[j].chainId > 0
    decreases |chains|
  {
    var init := chains[..|chains| - 1];
    MappedIsNamed(chains);
    if i < |chains| - 1 {
      LastPositiveWins(init, i);
    }
  }

  lemma {:induction false} MappedIsNamed(chains: seq<Blockchain>)
    ensures forall n :: n in ByNetwork(chains) ==> exists j :: Named(chains, j, n) && chains[j].chainId > 0
  {
    if chains != [] {
      var init := chains[..|chains| - 1];
      MappedIsNamed(init);
      forall n | n in ByNetwork(chains) ensures exists j :: Named(chains, j, n) && chains[j].chainId > 0 {
        if n in ByNetwork(init) {
          var j :| Named(init, j, n) && init[j].chainId > 0;
          assert Named(chains, j, n) && chains[j].chainId > 0;
        } else {
          assert Named(chains, |init|, n);
        }
      }
    }
  }

  predicate PositiveAndDistinct(chains: seq<Blockchain>) {
    && (forall i :: 0 <= i < |chains| ==> chains[i].chainId > 0)
    && (forall i, j :: 0 <= i < j < |chains| ==> chains[i].name != chains[j].name)
  }

  lemma AcceptableIsDistinct(chains: seq<Blockchain>)
    requires Acceptable(chains)
    ensures PositiveAndDistinct(chains)
  {
    forall i | 0 <= i < |chains|
      ensures chains[i].chainId > 0 && forall j :: 0 <= j < i ==> chains[j].name != chains[i].name
    {
      assert Fits(chains, i);
    }
  }

  predicate Named(chains: seq<Blockchain>, i: int, n: string) {
    0 <= i < |chains| && chains[i].name == n
  }

  /** For an accepted configuration the map holds exactly the configured pairs. */
  lemma {:induction false} AcceptedMapIsExact(chains: seq<Blockchain>)
    requires PositiveAndDistinct(chains)
    ensures forall n :: n in ByNetwork(chains) ==> exists i :: Named(chains, i, n)
    ensures forall i :: 0 <= i < |chains| ==>
            chains[i].name in ByNetwork(chains) && ByNetwork(chains)[chains[i].name] == chains[i].chainId
  {
    if chains != [] {
      var init := chains[..|chains| - 1];
      AcceptedMapIsExact(init);
      forall n | n in ByNetwork(chains)
        ensures exists i :: Named(chains, i, n)
      {
        if n in ByNetwork(init) {
          var i :| Named(init, i, n);
          assert Named(chains, i, n);
        } else {
          assert Named(chains, |init|, n);
        }
      }
    }
  }

  /** An accepted configuration names each chain once: ids are positive, and two names with one id, or with one
      trimmed form, are the same name. */
  lemma AcceptedMapIsInjective(chains: seq<Blockchain>, a: string, b: string)
    requires Acceptable(chains) && a in ByNetwork(chains) && b in ByNetwork(chains)
    ensures ByNetwork(chains)[a] > 0 && Trim(a) != ""
    ensures ByNetwork(chains)[a] == ByNetwork(chains)[b] || Trim(a) == Trim(b) ==> a == b
  {
    AcceptableIsDistinct(chains);
    AcceptedMapIsExact(chains);
    var i :| Named(chains, i, a);
    var j :| Named(chains, j, b);
    assert Fits(chains, i) && Fits(chains, j);
  }

  /* ---- The export ---- */

  predicate Increasing(s: seq<int>) {
    forall i, j :: 0 <= i < j < |s| ==> s[i] < s[j]
  }

  /** Insertion into an increasing sequence, the stand-in for `sort.Slice`. */
  function Insert(s: seq<int>, x: int): (r: seq<int>)
    requires Increasing(s) && x !in s
    ensures Increasing(r) && forall y :: y in r <==> y in s || y == x
  {
    if s == [] || x < s[0] then
      assert forall j :: 0 <= j < |s| ==> x < s[j];
      [x] + s
    else
      assert forall j :: 0 <= j < |s[1..]| ==> s[0] < s[1..][j];
      Above(s[0], Insert(s[1..], x));
      [s[0]] + Insert(s[1..], x)
  }

  lemma Above(x: int, s: seq<int>)
    requires Increasing(s) && forall y :: y in s ==> x < y
    ensures Increasing([x] + s)
  {
    assert forall i :: 0 <= i < |s| ==> s[i] in s;
  }

  /** The chain ids of the known networks. */
  ghost predicate IsIdOf(networks: seq<string>, m: map<string, int>, id: int) {
    id != 0 && exists i :: 0 <= i < |networks| && networks[i] in m && m[networks[i]] == id
  }

  method ResolveChainIDs(networks: seq<string>, m: map<string, int>) returns (out: seq<int>)
    ensures Increasing(out)
    ensures forall id :: id in out <==> IsIdOf(networks, m, id)
  {
    if m == map[] {
      return [];
    }
    var seen: set<int> := {};
    for i := 0 to |networks|
      invariant forall id :: id in seen <==> IsIdOf(networks[..i], m, id)
    {
      IdsGrow(networks[..i], networks[i], m);
      assert networks[..i] + [networks[i]] == networks[..i + 1];
      if networks[i] in m && m[networks[i]] != 0 {
        seen := seen + {m[networks[i]]};
      }
    }
    assert networks[..|networks|] == networks;
    out := [];
    var todo := seen;
    while |todo| > 0
      invariant todo <= seen && Increasing(out)
      invariant forall id :: id in out <==> id in seen - todo
      decreases todo
    {
      Inhabited(todo);
      var id :| id in todo;
      todo := todo - {id};
      out := Insert(out, id);
    }
  }

  lemma Inhabited(s: set<int>)
    requires |s| > 0
    ensures exists x :: x in s
  {
    assert (forall x :: x !in s) ==> s == {};
  }

  lemma IdsGrow(networks: seq<string>, n: string, m: map<string, int>)
    ensures forall id :: IsIdOf(networks + [n], m, id) <==> IsIdOf(networks, m, id) || (id != 0 && n in m && m[n] == id)
  {
    var longer := networks + [n];
    assert longer[|networks|] == n;
    assert forall i :: 0 <= i < |networks| ==> longer[i] == networks[i];
  }

  /** Two networks whose trimmed names differ and are not blank. */
  ghost predicate TwoNames(networks: seq<string>) {
    exists i, j :: 0 <= i < |networks| && 0 <= j < |networks|
                   && Trim(networks[i]) != "" && Trim(networks[j]) != "" && Trim(networks[i]) != Trim(networks[j])
  }

  method IsMultichain(chainIds: seq<int>, networks: seq<string>) returns (multi: bool)
    ensures multi <==> |chainIds| > 1 || TwoNames(networks)
  {
    if |chainIds| > 1 {
      return true;
    }
    var names: set<string> := {};
    for i := 0 to |networks|
      invariant forall n :: n in names <==> n != "" && exists j :: 0 <= j < i && Trim(networks[j]) == n
    {
      var n := Trim(networks[i]);
      if n != "" {
        names := names + {n};
      }
    }
    multi := |names| > 1;
    MoreThanOne(names);
    NamesDiffer(networks, names);
  }

  lemma NamesDiffer(networks: seq<string>, names: set<string>)
    requires forall n :: n in names <==> n != "" && exists j :: 0 <= j < |networks| && Trim(networks[j]) == n
    ensures TwoNames(networks) <==> exists a, b :: a in names && b in names && a != b
  {
    if TwoNames(networks) {
      var i, j :| 0 <= i < |networks| && 0 <= j < |networks|
                  && Trim(networks[i]) != "" && Trim(networks[j]) != "" && Trim(networks[i]) != Trim(networks[j]);
      assert Trim(networks[i]) in names && Trim(networks[j]) in names;
    }
    if a, b :| a in names && b in names && a != b {
      var i :| 0 <= i < |networks| && Trim(networks[i]) == a;
      var j :| 0 <= j < |networks| && Trim(networks[j]) == b;
    }
  }

  lemma MoreThanOne(s: set<string>)
    ensures |s| > 1 <==> exists a, b :: a in s && b in s && a != b
  {
    if |s| > 1 {
      var a :| a in s;
      assert |s - {a}| > 0;
      var b :| b in s - {a};
    } else if a, b :| a in s && b in s && a != b {
      SubsetSize({a, b}, s);
    }
  }

  /** With an accepted configuration the exported flag says just "two different names": two ids never come from
      spellings of one name. */
  lemma MultichainMeansTwoNames(chains: seq<Blockchain>, networks: seq<string>, ids: seq<int>)
    requires Acceptable(chains) && Increasing(ids)
    requires forall id :: id in ids <==> IsIdOf(networks, ByNetwork(chains), id)
    ensures |ids| > 1 || TwoNames(networks) <==> TwoNames(networks)
  {
    if |ids| > 1 {
      var m := ByNetwork(chains);
      assert ids[0] in ids && ids[1] in ids;
      var i :| 0 <= i < |networks| && networks[i] in m && m[networks[i]] == ids[0];
      var j :| 0 <= j < |networks| && networks[j] in m && m[networks[j]] == ids[1];
      AcceptedMapIsInjective(chains, networks[i], networks[j]);
      AcceptedMapIsInjective(chains, networks[j], networks[i]);
    }
  }

  /* ---- The scan detail ---- */

  /** The id the detail shows for one network string: a positive number stands for itself. `parse` is
      `strconv.ParseInt` on the trimmed string. */
  function IdOfNetwork(n: string, m: map<string, int>, parse: string -> Option<int>): Option<int> {
    if parse(Trim(n)).Some? && parse(Trim(n)).value > 0 then parse(Trim(n))
    else if n in m && m[n] > 0 then Some(m[n])
    else None
  }

  /** A string that parses as a positive number stands for that number, whatever the configuration; any other stands
      for the id configured under it, if that is positive. */
  lemma NumbersStandForThemselves(n: string, m: map<string, int>, parse: string -> Option<int>, id: int)
    ensures parse(Trim(n)) == Some(id) && id > 0 ==> IdOfNetwork(n, m, parse) == Some(id)
    ensures parse(Trim(n)).None? || parse(Trim(n)).value <= 0 ==>
              && (n in m && m[n] > 0 ==> IdOfNetwork(n, m, parse) == Some(m[n]))
              && (n !in m || m[n] <= 0 ==> IdOfNetwork(n, m, parse) == None)
  {
  }

  /** The ids in the order in which they first appear, each once; `at` says where. */
  ghost predicate FirstAppearances(
    names: seq<string>, m: map<string, int>, parse: string -> Option<int>, out: seq<int>, at: seq<nat>)
  {
    && |at| == |out|
    && (forall a, b :: 0 <= a < b < |at| ==> at[a] < at[b])
    && (forall a :: 0 <= a < |at| ==>
          && at[a] < |names| && IdOfNetwork(names[at[a]], m, parse) == Some(out[a])
          && forall i :: 0 <= i < at[a] ==> IdOfNetwork(names[i], m, parse) != Some(out[a]))
  }

  method ChainIDsForNetworks(names: seq<string>, m: map<string, int>, parse: string -> Option<int>)
    returns (out: seq<int>, ghost at: seq<nat>)
    ensures Distinct(out) && FirstAppearances(names, m, parse, out, at)
    ensures forall id :: id in out <==> exists i :: 0 <= i < |names| && IdOfNetwork(names[i], m, parse) == Some(id)
  {
    var seen: set<int> := {};
    out, at := [], [];
    for k := 0 to |names|
      invariant Distinct(out) && forall id :: id in seen <==> id in out
      invariant FirstAppearances(names[..k], m, parse, out, at)
      invariant forall id :: id in out <==> exists i :: 0 <= i < k && IdOfNetwork(names[i], m, parse) == Some(id)
    {
      var n := names[k];
      var found := false;
      var id := 0;
      if parse(Trim(n)).Some? && parse(Trim(n)).value > 0 {
        found, id := true, parse(Trim(n)).value;
      } else if n in m && m[n] > 0 {
        found, id := true, m[n];
      }
      AppearancesGrow(names, m, parse, k, out, at);
      if found && id !in seen {
        seen, out, at := seen + {id}, Push(out, id), at + [k];
      }
    }
    assert names[..|names|] == names;
  }

  lemma AppearancesGrow(
    names: seq<string>, m: map<string, int>, parse: string -> Option<int>, k: nat, out: seq<int>, at: seq<nat>)
    requires k < |names| && FirstAppearances(names[..k], m, parse, out, at)
    ensures FirstAppearances(names[..k + 1], m, parse, out, at)
    ensures var id := IdOfNetwork(names[k], m, parse);
            id.Some? && (forall i :: 0 <= i < k ==> IdOfNetwork(names[i], m, parse) != id) ==>
              FirstAppearances(names[..k + 1], m, parse, out + [id.value], at + [k])
  {
    assert forall i :: 0 <= i < k ==> names[..k + 1][i] == names[..k][i] == names[i];
  }

  function Push(s: seq<int>, x: int): (r: seq<int>)
    requires Distinct(s) && x !in s
    ensures r == s + [x] && Distinct(r) && forall y :: y in r <==> y in s || y == x
  {
    assert forall i :: 0 <= i < |s| ==> s[i] in s;
    s + [x]
  }

  /** When no network string is a positive number, the detail lists the exported ids in another order. */
  lemma DetailAgreesWithExport(
    chains: seq<Blockchain>, names: seq<string>, parse: string -> Option<int>, detail: seq<int>, exported: seq<int>)
    requires Acceptable(chains)
    requires forall i :: 0 <= i < |names| ==> parse(Trim(names[i])).None? || parse(Trim(names[i])).value <= 0
    requires Distinct(detail)
    requires forall id :: id in detail <==>
               exists i :: 0 <= i < |names| && IdOfNetwork(names[i], ByNetwork(chains), parse) == Some(id)
    requires Increasing(exported) && forall id :: id in exported <==> IsIdOf(names, ByNetwork(chains), id)
    ensures multiset(detail) == multiset(exported)
  {
    var m := ByNetwork(chains);
    forall id
      ensures id in detail <==> id in exported
    {
      if id in exported {
        var i :| 0 <= i < |names| && names[i] in m && m[names[i]] == id;
        AcceptedMapIsInjective(chains, names[i], names[i]);
        assert IdOfNetwork(names[i], m, parse) == Some(id);
      }
    }
    SameMembers(detail, exported);
  }

  lemma CountOfDistinct(s: seq<int>, x: int)
    requires Distinct(s)
    ensures multiset(s)[x] == if x in s then 1 else 0
  {
    if s != [] {
      assert s == [s[0]] + s[1..];
      CountOfDistinct(s[1..], x);
    }
  }

  lemma SameMembers(s: seq<int>, t: seq<int>)
    requires Distinct(s) && Distinct(t) && forall x :: x in s <==> x in t
    ensures multiset(s) == multiset(t)
  {
    forall x ensures multiset(s)[x] == multiset(t)[x] {
      CountOfDistinct(s, x);
      CountOfDistinct(t, x);
    }
  }
}

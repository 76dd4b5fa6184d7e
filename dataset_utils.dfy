/*
  Dataset helpers (lightautoml/dataset/utils.py): turning the role → names
  format into a name → role dictionary, and choosing the concatenation that
  can join a sequence of datasets.
*/
module DatasetUtils {
  import opened Results

  // ---------------------------------------------------------------------------
  // roles_parser
  // ---------------------------------------------------------------------------

  /** The value stored under a role: a single feature name, or a sequence of names. */
  datatype Features = Name(name: string) | Names(names: seq<string>)

  /** The names a value mentions; a single name is one name, never its characters. */
  function Mentions(f: Features): seq<string>
  {
    match f
    case Name(n) => [n]
    case Names(ns) => ns
  }

  /** `m` with every name of `ns` mapped to `r`, in order. */
  function Assign<R>(m: map<string, R>, ns: seq<string>, r: R): (m': map<string, R>)
    ensures forall k :: k in m' <==> k in m || k in ns
    ensures forall k :: k in m' ==> m'[k] == if k in ns then r else m[k]
  {
    if |ns| == 0 then m
    else
      var m0 := Assign(m, ns[..|ns| - 1], r);
      assert forall k :: k in ns <==> k in ns[..|ns| - 1] || k == ns[|ns| - 1] by {
        assert ns == ns[..|ns| - 1] + [ns[|ns| - 1]];
      }
      m0[ns[|ns| - 1] := r]
  }

  /** Reference definition of `roles_parser`: the entries of the input applied in iteration order. */
  function Parsed<R>(init: seq<(R, Features)>): map<string, R>
  {
    if |init| == 0 then map[]
    else
      var (r, f) := init[|init| - 1];
      Assign(Parsed(init[..|init| - 1]), Mentions(f), r)
  }

  /** Index of the last entry that mentions `k`, or -1 when none does. */
  function LastMention<R>(init: seq<(R, Features)>, k: string): (i: int)
    ensures -1 <= i < |init|
    ensures i >= 0 ==> k in Mentions(init[i].1)
    ensures forall j :: i < j < |init| ==> k !in Mentions(init[j].1)
  {
    if |init| == 0 then -1
    else if k in Mentions(init[|init| - 1].1) then |init| - 1
    else LastMention(init[..|init| - 1], k)
  }

  /** `roles_parser`: invert role → names into name → role. */
  method RolesParser<R>(init: seq<(R, Features)>) returns (roles: map<string, R>)
    ensures roles == Parsed(init)
  {
    roles := map[];
    var i := 0;
    while i < |init|
      invariant 0 <= i <= |init|
      invariant roles == Parsed(init[..i])
    {
      var (r, feat) := init[i];
      ParsedSnoc(init, i);
      ghost var before := roles;
      match feat {
        case Name(n) =>
          roles := roles[n := r];
          AssignOne(before, n, r);
        case Names(ns) =>
          var j := 0;
          while j < |ns|
            invariant 0 <= j <= |ns|
            invariant roles == Assign(before, ns[..j], r)
          {
            AssignSnoc(before, ns, j, r);
            roles := roles[ns[j] := r];
            j := j + 1;
          }
          assert ns[..|ns|] == ns;
      }
      i := i + 1;
    }
    assert init[..|init|] == init;
  }

  lemma ParsedSnoc<R>(init: seq<(R, Features)>, i: int)
    requires 0 <= i < |init|
    ensures Parsed(init[..i + 1]) == Assign(Parsed(init[..i]), Mentions(init[i].1), init[i].0)
  {
    assert init[..i + 1][..i] == init[..i];
  }

  lemma AssignOne<R>(m: map<string, R>, n: string, r: R)
    ensures Assign(m, [n], r) == m[n := r]
  {
    assert [n][..0] == [];
  }

  lemma AssignSnoc<R>(m: map<string, R>, ns: seq<string>, j: int, r: R)
    requires 0 <= j < |ns|
    ensures Assign(m, ns[..j + 1], r) == Assign(m, ns[..j], r)[ns[j] := r]
  {
    assert ns[..j + 1][..j] == ns[..j];
  }

  /**
    The keys of the result are exactly the names mentioned, and a name listed
    under several roles gets the role of its last entry in iteration order.
  */
  lemma {:induction false} ParsedRoles<R>(init: seq<(R, Features)>)
    ensures forall k :: k in Parsed(init) <==> exists i :: 0 <= i < |init| && k in Mentions(init[i].1)
    ensures forall k :: k in Parsed(init) ==> Parsed(init)[k] == init[LastMention(init, k)].0
  {
    if |init| > 0 {
      var prefix := init[..|init| - 1];
      ParsedRoles(prefix);
      assert forall i :: 0 <= i < |prefix| ==> prefix[i] == init[i];
      forall k
        ensures k in Parsed(init) <==> exists i :: 0 <= i < |init| && k in Mentions(init[i].1)
      {
        if k in Mentions(init[|init| - 1].1) {
          assert k in Parsed(init);
        } else if exists i :: 0 <= i < |init| && k in Mentions(init[i].1) {
          var i :| 0 <= i < |init| && k in Mentions(init[i].1);
          assert i < |prefix| && k in Mentions(prefix[i].1);
        }
      }
    }
  }

  /** A single string maps that one name to its role; its characters are not keys. */
  lemma SingleNameNotSplit<R>(r: R, name: string)
    ensures Parsed([(r, Name(name))]) == map[name := r]
    ensures |name| > 1 ==> forall c :: c in name ==> [c] !in Parsed([(r, Name(name))])
  {
    var init := [(r, Name(name))];
    assert init[..0] == [];
    assert Parsed(init) == Assign(map[], [name], r);
    if |name| > 1 {
      forall c | c in name ensures [c] != name {
        assert |[c]| == 1;
      }
    }
  }

  /** A sequence of names maps every one of them to its role. */
  lemma NamesAllMapped<R>(r: R, names: seq<string>)
    ensures forall k :: k in Parsed([(r, Names(names))]) <==> k in names
    ensures forall k :: k in names ==> Parsed([(r, Names(names))])[k] == r
  {
    var init := [(r, Names(names))];
    assert init[..0] == [];
    assert Parsed(init) == Assign(map[], names, r);
  }

  // ---------------------------------------------------------------------------
  // get_common_concat and concatenate
  // ---------------------------------------------------------------------------

  /** The dataset classes whose `concat` can be chosen. */
  datatype DatasetKind = NumpyDataset | CSRSparseDataset | PandasDataset | OtherDataset(name: string)

  datatype ConcatError = TypeError

  /** The set of dataset classes of `ds`, `set(type(x) for x in datasets)`. */
  function Kinds<D>(ds: seq<D>, kindOf: D -> DatasetKind): set<DatasetKind>
  {
    set i | 0 <= i < |ds| :: kindOf(ds[i])
  }

  /** All datasets share one class. */
  predicate SameKind<D>(ds: seq<D>, kindOf: D -> DatasetKind)
  {
    |ds| > 0 && forall i :: 0 <= i < |ds| ==> kindOf(ds[i]) == kindOf(ds[0])
  }

  /** Dense and sparse arrays, both present and nothing else. */
  predicate NumpyAndSparse<D>(ds: seq<D>, kindOf: D -> DatasetKind)
  {
    && (exists i :: 0 <= i < |ds| && kindOf(ds[i]) == NumpyDataset)
    && (exists i :: 0 <= i < |ds| && kindOf(ds[i]) == CSRSparseDataset)
    && (forall i :: 0 <= i < |ds| ==> kindOf(ds[i]) == NumpyDataset || kindOf(ds[i]) == CSRSparseDataset)
  }

  /** The `concat` of class `k` accepts a dataset of class `c`: its own, or dense into sparse. */
  predicate Absorbs(k: DatasetKind, c: DatasetKind)
  {
    c == k || (c == NumpyDataset && k == CSRSparseDataset)
  }

  /**
    `get_common_concat`: the class whose `concat` joins the datasets. One
    class gives that class; exactly dense and sparse gives sparse; any other
    mix, and the empty sequence, raises `TypeError`.
  */
  function GetCommonConcat<D>(ds: seq<D>, kindOf: D -> DatasetKind): (r: Result<DatasetKind, ConcatError>)
    ensures r.Ok? <==> SameKind(ds, kindOf) || NumpyAndSparse(ds, kindOf)
    ensures SameKind(ds, kindOf) ==> r == Ok(kindOf(ds[0]))
    ensures NumpyAndSparse(ds, kindOf) ==> r == Ok(CSRSparseDataset)
    ensures r.Ok? ==> forall i :: 0 <= i < |ds| ==> Absorbs(r.value, kindOf(ds[i]))
    ensures r.Err? ==> r.error == TypeError
  {
    var kinds := Kinds(ds, kindOf);
    KindsFacts(ds, kindOf);
    if |kinds| == 1 then Ok(kindOf(ds[0]))
    else if kinds == {NumpyDataset, CSRSparseDataset} then Ok(CSRSparseDataset)
    else Err(TypeError)
  }

  /** The set of classes has one element exactly when all datasets share a class, and is `{numpy, sparse}` exactly for that mix. */
  lemma KindsFacts<D>(ds: seq<D>, kindOf: D -> DatasetKind)
    ensures |Kinds(ds, kindOf)| == 1 <==> SameKind(ds, kindOf)
    ensures Kinds(ds, kindOf) == {NumpyDataset, CSRSparseDataset} <==> NumpyAndSparse(ds, kindOf)
    ensures |ds| > 0 ==> kindOf(ds[0]) in Kinds(ds, kindOf)
  {
    var kinds := Kinds(ds, kindOf);
    assert forall i :: 0 <= i < |ds| ==> kindOf(ds[i]) in kinds;
    assert forall c :: c in kinds ==> exists i :: 0 <= i < |ds| && kindOf(ds[i]) == c;
    if SameKind(ds, kindOf) {
      assert kinds == {kindOf(ds[0])};
    }
    if |kinds| == 1 {
      var c :| c in kinds;
      assert kinds == {c} by {
        forall c' | c' in kinds ensures c' == c {
          if c' != c {
            assert {c, c'} <= kinds;
            assert |{c, c'}| == 2;
            SubsetCard({c, c'}, kinds);
          }
        }
      }
    }
  }

  lemma SubsetCard<T>(a: set<T>, b: set<T>)
    requires a <= b
    ensures |a| <= |b|
  {
    if a != {} {
      var x :| x in a;
      SubsetCard(a - {x}, b - {x});
    }
  }

  /**
    `concatenate`: the `concat` of the class `get_common_concat` chose, applied
    to the same datasets; a `TypeError` from the choice propagates.
  */
  function Concatenate<D>(ds: seq<D>, kindOf: D -> DatasetKind, concat: (DatasetKind, seq<D>) -> D)
    : (r: Result<D, ConcatError>)
    ensures r.Ok? <==> SameKind(ds, kindOf) || NumpyAndSparse(ds, kindOf)
    ensures r.Ok? ==> exists k :: r.value == concat(k, ds) && forall i :: 0 <= i < |ds| ==> Absorbs(k, kindOf(ds[i]))
    ensures r.Err? ==> r.error == TypeError
    ensures GetCommonConcat(ds, kindOf).Ok? ==> r == Ok(concat(GetCommonConcat(ds, kindOf).value, ds))
  {
    match GetCommonConcat(ds, kindOf)
    case Ok(k) => Ok(concat(k, ds))
    case Err(e) => Err(e)
  }
}

/** The LINQ operators the routines depend on, on sequences of values. */
module Linq {
  import opened Wrappers
  import opened Domain

  /** `source.First()`: fails on a null or an empty sequence. */
  function First<T>(source: Option<seq<T>>): (r: Result<T, Error>)
    ensures source.None? ==> r == Failure(ArgumentNull("source"))
    ensures source.Some? && source.value == [] ==> r == Failure(SequenceContainsNoElements)
    ensures source.Some? && source.value != [] ==> r == Success(source.value[0])
  {
    match source
    case None => Failure(ArgumentNull("source"))
    case Some(s) => if s == [] then Failure(SequenceContainsNoElements) else Success(s[0])
  }

  /** The elements of `s` that do not occur in `excluded`, each once, in the order
      of their first occurrence. */
  function ExceptFrom<T(==,!new)>(s: seq<T>, excluded: set<T>): (r: seq<T>)
    ensures forall x :: x in r <==> x in s && x !in excluded
  {
    if s == [] then []
    else if s[0] in excluded then ExceptFrom(s[1..], excluded)
    else [s[0]] + ExceptFrom(s[1..], excluded + {s[0]})
  }

  /** `first.Except(second)`: set difference under value equality, in the order of `first`. */
  function Except<T(==,!new)>(first: seq<T>, second: seq<T>): seq<T>
  {
    ExceptFrom(first, set x | x in second)
  }

  function FirstOrDefault<T>(s: seq<T>): (r: Option<T>)
  {
    if s == [] then None else Some(s[0])
  }

  /** The first element of `first`, in order, that has no equal in `second`. */
  predicate IsFirstMissing<T(==)>(first: seq<T>, second: seq<T>, i: nat)
  {
    i < |first| && first[i] !in second && forall j :: 0 <= j < i ==> first[j] in second
  }

  lemma {:induction false} ExceptFromHead<T(!new)>(s: seq<T>, excluded: set<T>)
    ensures FirstOrDefault(ExceptFrom(s, excluded)).None? <==> forall j :: 0 <= j < |s| ==> s[j] in excluded
    ensures FirstOrDefault(ExceptFrom(s, excluded)).Some? ==>
      exists i :: 0 <= i < |s| && s[i] == FirstOrDefault(ExceptFrom(s, excluded)).value
        && s[i] !in excluded && forall j :: 0 <= j < i ==> s[j] in excluded
  {
    if s != [] && s[0] in excluded {
      ExceptFromHead(s[1..], excluded);
      var r := FirstOrDefault(ExceptFrom(s[1..], excluded));
      if r.Some? {
        var i :| 0 <= i < |s[1..]| && s[1..][i] == r.value && s[1..][i] !in excluded
          && forall j :: 0 <= j < i ==> s[1..][j] in excluded;
        assert s[i + 1] == r.value;
        assert forall j :: 0 <= j < i + 1 ==> s[j] in excluded by {
          forall j | 0 <= j < i + 1 ensures s[j] in excluded {
            if j > 0 { assert s[j] == s[1..][j - 1]; }
          }
        }
      } else {
        assert forall j :: 0 <= j < |s| ==> s[j] in excluded by {
          forall j | 0 <= j < |s| ensures s[j] in excluded {
            if j > 0 { assert s[j] == s[1..][j - 1]; }
          }
        }
      }
    }
  }

  /** `first.Except(second).FirstOrDefault()` is the first element of `first` without
      an equal in `second`, and is null exactly when every element has one. */
  lemma FirstOfExcept<T(!new)>(first: seq<T>, second: seq<T>)
    ensures FirstOrDefault(Except(first, second)).None? <==> forall j :: 0 <= j < |first| ==> first[j] in second
    ensures FirstOrDefault(Except(first, second)).Some? ==>
      exists i :: 0 <= i < |first| && IsFirstMissing(first, second, i) && first[i] == FirstOrDefault(Except(first, second)).value
  {
    ExceptFromHead(first, set x | x in second);
  }

  lemma {:induction false} ExceptFromAllExcluded<T(!new)>(s: seq<T>, excluded: set<T>)
    requires forall i :: 0 <= i < |s| ==> s[i] in excluded
    ensures ExceptFrom(s, excluded) == []
  {
    if s != [] {
      ExceptFromAllExcluded(s[1..], excluded);
    }
  }

  /** A sequence minus itself is empty. */
  lemma ExceptSelf<T(!new)>(s: seq<T>)
    ensures Except(s, s) == []
  {
    ExceptFromAllExcluded(s, set x | x in s);
  }

  predicate Distinct<T(==)>(r: seq<T>)
  {
    forall i, j :: 0 <= i < j < |r| ==> r[i] != r[j]
  }

  /** No element occurs twice in the difference. */
  lemma {:induction false} ExceptFromDistinct<T(!new)>(s: seq<T>, excluded: set<T>)
    ensures Distinct(ExceptFrom(s, excluded))
  {
    if s != [] {
      if s[0] in excluded {
        ExceptFromDistinct(s[1..], excluded);
        assert ExceptFrom(s, excluded) == ExceptFrom(s[1..], excluded);
      } else {
        ExceptFromDistinct(s[1..], excluded + {s[0]});
        var rest := ExceptFrom(s[1..], excluded + {s[0]});
        assert s[0] !in rest;
        var r := ExceptFrom(s, excluded);
        assert r == [s[0]] + rest;
        forall i, j | 0 <= i < j < |r| ensures r[i] != r[j] {
          if i == 0 {
            assert r[0] == s[0];
            assert r[j] == rest[j - 1];
            assert rest[j - 1] in rest;
          } else {
            assert r[i] == rest[i - 1] && r[j] == rest[j - 1];
            assert 0 <= i - 1 < j - 1 < |rest|;
          }
        }
      }
    }
  }
}

/** The field-presence check `postDevice` runs before anything reaches storage. */
module Validation {
  import opened Devices

  /** The start of every 400 body. */
  const Prefix := "Empty Field is not valid,Check the following: "

  /** What follows each listed field name. */
  const Separator := ", "

  /** The display names, in the order the handler checks the fields. */
  const FieldNames: seq<string> := ["ID", "Model", "Name", "Note", "Serial"]

  /** The field values of `d`, aligned with `FieldNames`. */
  function Fields(d: Device): (fs: seq<string>)
    ensures |fs| == |FieldNames|
    ensures Complete(d) <==> "" !in fs
  {
    [d.id, d.model, d.name, d.note, d.serial]
  }

  /** A device is accepted for creation only when all five fields are non-empty. */
  predicate Complete(d: Device)
  {
    d.id != "" && d.model != "" && d.name != "" && d.note != "" && d.serial != ""
  }

  /** The error-field text as the handler accumulates it: the checks run in
      the order of `FieldNames`, each appending `<Name>, ` when its field is
      empty. */
  function EmptyFieldText(d: Device): (s: string)
    ensures s == "" <==> Complete(d)
  {
    AccumulateIsListing("", FieldNames, Fields(d));
    NothingMissing(FieldNames, Fields(d));
    Accumulate("", FieldNames, Fields(d))
  }

  /** One pass of `emptyField = emptyField + "<Name>, "` guarded by each
      field's emptiness, starting from `acc`. */
  function Accumulate(acc: string, names: seq<string>, values: seq<string>): (s: string)
    requires |names| == |values|
    ensures acc <= s
    decreases |names|
  {
    if |names| == 0 then acc
    else Accumulate(if values[0] == "" then acc + names[0] + Separator else acc, names[1..], values[1..])
  }

  /** Reference definition: the names whose value is empty, in their given order. */
  function Missing(names: seq<string>, values: seq<string>): (r: seq<string>)
    requires |names| == |values|
    ensures |r| <= |names|
  {
    if |names| == 0 then []
    else (if values[0] == "" then [names[0]] else []) + Missing(names[1..], values[1..])
  }

  /** Every name followed by the separator, concatenated. */
  function Join(ns: seq<string>): (r: string)
    ensures |r| >= |Separator| * |ns|
  {
    if |ns| == 0 then "" else ns[0] + Separator + Join(ns[1..])
  }

  /** No element occurs twice. */
  predicate Distinct(s: seq<string>)
  {
    forall i, j :: 0 <= i < j < |s| ==> s[i] != s[j]
  }

  /** `a` is `b` with some elements dropped and the rest kept in order. */
  predicate Subsequence(a: seq<string>, b: seq<string>)
    decreases |b|
  {
    if |a| == 0 then true
    else if |b| == 0 then false
    else if a[0] == b[0] then Subsequence(a[1..], b[1..])
    else Subsequence(a, b[1..])
  }

  /** Only given names are ever listed. */
  lemma {:induction false} MissingWithin(names: seq<string>, values: seq<string>)
    requires |names| == |values|
    ensures forall n :: n in Missing(names, values) ==> n in names
    decreases |names|
  {
    if |names| > 0 {
      MissingWithin(names[1..], values[1..]);
      assert forall n :: n in names[1..] ==> n in names;
    }
  }

  /** The head of a list of distinct names does not occur in its tail. */
  lemma HeadNotInTail(names: seq<string>)
    requires |names| > 0
    requires Distinct(names)
    ensures names[0] !in names[1..]
    ensures Distinct(names[1..])
  {
    forall k | 0 <= k < |names[1..]|
      ensures names[1..][k] != names[0]
    {
      assert names[1..][k] == names[k + 1];
    }
  }

  /** With distinct names, a name is listed exactly when its value is empty. */
  lemma {:induction false} MissingListsExactlyEmpty(names: seq<string>, values: seq<string>, i: int)
    requires |names| == |values|
    requires Distinct(names)
    requires 0 <= i < |names|
    ensures names[i] in Missing(names, values) <==> values[i] == ""
    decreases |names|
  {
    var head := if values[0] == "" then [names[0]] else [];
    var rest := Missing(names[1..], values[1..]);
    assert Missing(names, values) == head + rest;
    HeadNotInTail(names);
    if i == 0 {
      MissingWithin(names[1..], values[1..]);
      assert names[0] !in rest;
    } else {
      MissingListsExactlyEmpty(names[1..], values[1..], i - 1);
      assert names[1..][i - 1] == names[i] && values[1..][i - 1] == values[i];
      assert names[i] != names[0];
      assert names[i] !in head;
    }
  }

  /** With distinct names the listing keeps their order. */
  lemma {:induction false} MissingIsSubsequence(names: seq<string>, values: seq<string>)
    requires |names| == |values|
    requires Distinct(names)
    ensures Subsequence(Missing(names, values), names)
    decreases |names|
  {
    if |names| > 0 {
      var rest := Missing(names[1..], values[1..]);
      HeadNotInTail(names);
      MissingIsSubsequence(names[1..], values[1..]);
      if values[0] == "" {
        assert Missing(names, values) == [names[0]] + rest;
        assert ([names[0]] + rest)[1..] == rest;
      } else {
        assert Missing(names, values) == rest;
        if |rest| > 0 {
          MissingWithin(names[1..], values[1..]);
          assert rest[0] in rest;
          assert rest[0] != names[0];
        }
      }
    }
  }

  /** With distinct names, no name is listed twice. */
  lemma {:induction false} MissingDistinct(names: seq<string>, values: seq<string>)
    requires |names| == |values|
    requires Distinct(names)
    ensures Distinct(Missing(names, values))
    decreases |names|
  {
    if |names| > 0 {
      var rest := Missing(names[1..], values[1..]);
      HeadNotInTail(names);
      MissingDistinct(names[1..], values[1..]);
      if values[0] == "" {
        MissingWithin(names[1..], values[1..]);
        var r := [names[0]] + rest;
        forall i, j | 0 <= i < j < |r|
          ensures r[i] != r[j]
        {
          assert r[j] == rest[j - 1];
          if i == 0 {
            assert rest[j - 1] in rest;
          } else {
            assert r[i] == rest[i - 1];
          }
        }
      }
    }
  }

  /** The accumulation appends the listing of the empty values' names. */
  lemma {:induction false} AccumulateIsListing(acc: string, names: seq<string>, values: seq<string>)
    requires |names| == |values|
    ensures Accumulate(acc, names, values) == acc + Join(Missing(names, values))
    decreases |names|
  {
    if |names| > 0 {
      var head := if values[0] == "" then [names[0]] else [];
      var rest := Missing(names[1..], values[1..]);
      var acc' := if values[0] == "" then acc + names[0] + Separator else acc;
      AccumulateIsListing(acc', names[1..], values[1..]);
      assert Missing(names, values) == head + rest;
      JoinAppend(head, rest);
      JoinSingle(head);
    }
  }

  /** Nothing is listed exactly when no value is empty. */
  lemma {:induction false} NothingMissing(names: seq<string>, values: seq<string>)
    requires |names| == |values|
    ensures Join(Missing(names, values)) == "" <==> "" !in values
    decreases |names|
  {
    if |names| > 0 {
      NothingMissing(names[1..], values[1..]);
      assert values == [values[0]] + values[1..];
      if values[0] == "" {
        assert |Missing(names, values)| > 0;
      } else {
        assert Missing(names, values) == Missing(names[1..], values[1..]);
      }
    }
  }

  /** When every value is empty, every name is listed. */
  lemma {:induction false} AllEmptyListsAll(names: seq<string>, values: seq<string>)
    requires |names| == |values|
    requires forall i :: 0 <= i < |values| ==> values[i] == ""
    ensures Missing(names, values) == names
    decreases |names|
  {
    if |names| > 0 {
      AllEmptyListsAll(names[1..], values[1..]);
      assert names == [names[0]] + names[1..];
    }
  }

  /** The accumulated text is the listing of the empty fields' names. */
  lemma EmptyFieldTextIsListing(d: Device)
    ensures EmptyFieldText(d) == Join(Missing(FieldNames, Fields(d)))
  {
    AccumulateIsListing("", FieldNames, Fields(d));
  }

  /** A listing of at most one name is that name and the separator. */
  lemma JoinSingle(h: seq<string>)
    requires |h| <= 1
    ensures Join(h) == if |h| == 0 then "" else h[0] + Separator
  {
    if |h| == 1 {
      assert h[1..] == [];
    }
  }

  /** Joining distributes over concatenation. */
  lemma {:induction false} JoinAppend(a: seq<string>, b: seq<string>)
    ensures Join(a + b) == Join(a) + Join(b)
    decreases |a|
  {
    if |a| > 0 {
      assert (a + b)[0] == a[0];
      assert (a + b)[1..] == a[1..] + b;
      JoinAppend(a[1..], b);
      calc {
        Join(a + b);
        a[0] + Separator + Join(a[1..] + b);
        a[0] + Separator + (Join(a[1..]) + Join(b));
        (a[0] + Separator + Join(a[1..])) + Join(b);
      }
    } else {
      assert a + b == b;
    }
  }

  /** The 400 body names exactly the empty fields, each once, in the fixed
      order ID, Model, Name, Note, Serial. */
  lemma ListingNamesExactlyEmptyFields(d: Device)
    ensures EmptyFieldText(d) == Join(Missing(FieldNames, Fields(d)))
    ensures forall i :: 0 <= i < |FieldNames| ==>
      (FieldNames[i] in Missing(FieldNames, Fields(d)) <==> Fields(d)[i] == "")
    ensures Distinct(Missing(FieldNames, Fields(d)))
    ensures Subsequence(Missing(FieldNames, Fields(d)), FieldNames)
  {
    EmptyFieldTextIsListing(d);
    assert Distinct(FieldNames);
    forall i | 0 <= i < |FieldNames|
      ensures FieldNames[i] in Missing(FieldNames, Fields(d)) <==> Fields(d)[i] == ""
    {
      MissingListsExactlyEmpty(FieldNames, Fields(d), i);
    }
    MissingDistinct(FieldNames, Fields(d));
    MissingIsSubsequence(FieldNames, Fields(d));
  }

  /** Two separated display names that start equal texts are the same name. */
  lemma SameLeadingName(p: string, q: string, s: string, t: string)
    requires p in FieldNames && q in FieldNames
    requires p + Separator + s == q + Separator + t
    ensures p == q
  {
    var w := p + Separator + s;
    var v := q + Separator + t;
    assert w[0] == p[0] && w[1] == p[1];
    assert v[0] == q[0] && v[1] == q[1];
  }

  /** A listing of display names can be read back: equal texts list the same names. */
  lemma {:induction false} JoinInjective(a: seq<string>, b: seq<string>)
    requires forall n :: n in a ==> n in FieldNames
    requires forall n :: n in b ==> n in FieldNames
    requires Join(a) == Join(b)
    ensures a == b
    decreases |a|
  {
    if |a| > 0 && |b| > 0 {
      var x := a[0] + Separator;
      var y := b[0] + Separator;
      assert Join(a) == a[0] + Separator + Join(a[1..]);
      assert Join(b) == b[0] + Separator + Join(b[1..]);
      SameLeadingName(a[0], b[0], Join(a[1..]), Join(b[1..]));
      assert x == y;
      assert Join(a) == x + Join(a[1..]);
      assert Join(b) == x + Join(b[1..]);
      assert Join(a[1..]) == Join(a)[|x|..];
      assert Join(b[1..]) == Join(b)[|x|..];
      assert forall n :: n in a[1..] ==> n in a;
      assert forall n :: n in b[1..] ==> n in b;
      JoinInjective(a[1..], b[1..]);
    }
  }

  /** The error-field text determines which fields were empty. */
  lemma EmptyFieldTextDeterminesFields(d1: Device, d2: Device)
    requires EmptyFieldText(d1) == EmptyFieldText(d2)
    ensures forall i :: 0 <= i < |FieldNames| ==> (Fields(d1)[i] == "" <==> Fields(d2)[i] == "")
  {
    var m1 := Missing(FieldNames, Fields(d1));
    var m2 := Missing(FieldNames, Fields(d2));
    ListingNamesExactlyEmptyFields(d1);
    ListingNamesExactlyEmptyFields(d2);
    MissingWithin(FieldNames, Fields(d1));
    MissingWithin(FieldNames, Fields(d2));
    JoinInjective(m1, m2);
  }
}

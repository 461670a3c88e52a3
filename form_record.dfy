/**
  The report record the form edits, its initial value, the single-field
  updates wired to the inputs, and the violence-type checkbox toggle.
 */
module FormRecord {

  /** The fields of the form state: `address`, `violence_type`, `description`,
      `contact_email` and `is_anonymous`. */
  datatype Form = Form(
    address: string,
    violenceType: seq<string>,
    description: string,
    contactEmail: string,
    isAnonymous: bool)

  /** The labels the checkboxes offer, in display order. */
  const ViolenceTypes: seq<string> := ["Physical", "Verbal", "Sexual", "Psychological"]

  /** The value the form starts with, and the value it is reset to after a
      successful submission: empty texts, no type ticked, anonymous. */
  const InitialForm: Form := Form("", [], "", "", true)

  /** No element occurs twice. */
  ghost predicate NoDuplicates(xs: seq<string>) {
    forall i, j | 0 <= i < j < |xs| :: xs[i] != xs[j]
  }

  /** Every ticked type is one of the offered labels. */
  ghost predicate KnownTypes(xs: seq<string>) {
    forall x | x in xs :: x in ViolenceTypes
  }

  // ---- single-field updates (`setForm({...form, field: value})`) ----

  function WithAddress(f: Form, v: string): (r: Form)
    ensures r.address == v
    ensures r.violenceType == f.violenceType && r.description == f.description
    ensures r.contactEmail == f.contactEmail && r.isAnonymous == f.isAnonymous
  {
    f.(address := v)
  }

  function WithDescription(f: Form, v: string): (r: Form)
    ensures r.description == v
    ensures r.address == f.address && r.violenceType == f.violenceType
    ensures r.contactEmail == f.contactEmail && r.isAnonymous == f.isAnonymous
  {
    f.(description := v)
  }

  function WithContactEmail(f: Form, v: string): (r: Form)
    ensures r.contactEmail == v
    ensures r.address == f.address && r.violenceType == f.violenceType
    ensures r.description == f.description && r.isAnonymous == f.isAnonymous
  {
    f.(contactEmail := v)
  }

  function WithIsAnonymous(f: Form, v: bool): (r: Form)
    ensures r.isAnonymous == v
    ensures r.address == f.address && r.violenceType == f.violenceType
    ensures r.description == f.description && r.contactEmail == f.contactEmail
  {
    f.(isAnonymous := v)
  }

  // ---- the violence-type toggle ----

  /** `xs.filter(x => x !== t)`: every occurrence of `t` is gone and every other
      element keeps its number of occurrences. */
  function RemoveAll(xs: seq<string>, t: string): (r: seq<string>)
    ensures multiset(r) == multiset(xs)[t := 0]
    ensures forall x :: x in r <==> x in xs && x != t
    ensures |r| <= |xs|
  {
    if xs == [] then []
    else
      assert xs == [xs[0]] + xs[1..];
      (if xs[0] == t then [] else [xs[0]]) + RemoveAll(xs[1..], t)
  }

  /** The filter works element by element, so it keeps the relative order of
      what it keeps: filtering a concatenation filters each part. */
  lemma {:induction false} RemoveAllAppend(a: seq<string>, b: seq<string>, t: string)
    ensures RemoveAll(a + b, t) == RemoveAll(a, t) + RemoveAll(b, t)
  {
    if a == [] {
      assert a + b == b;
    } else {
      assert (a + b)[0] == a[0] && (a + b)[1..] == a[1..] + b;
      RemoveAllAppend(a[1..], b, t);
    }
  }

  /** Filtering out an element that does not occur changes nothing. */
  lemma {:induction false} RemoveAllAbsent(xs: seq<string>, t: string)
    requires t !in xs
    ensures RemoveAll(xs, t) == xs
  {
    if xs != [] {
      assert xs == [xs[0]] + xs[1..];
      RemoveAllAbsent(xs[1..], t);
    }
  }

  /** `prev.includes(t) ? prev.filter(x => x !== t) : [...prev, t]` */
  function Toggle(xs: seq<string>, t: string): (r: seq<string>)
    ensures t in r <==> t !in xs
    ensures forall x | x != t :: x in r <==> x in xs
    ensures t !in xs ==> r == xs + [t]
    ensures t in xs ==> multiset(r) == multiset(xs)[t := 0]
  {
    if t in xs then RemoveAll(xs, t) else xs + [t]
  }

  /** The checkbox handler: flips `t` in `violence_type`, nothing else changes. */
  function ToggleViolenceType(f: Form, t: string): (r: Form)
    ensures t in r.violenceType <==> t !in f.violenceType
    ensures forall x | x != t :: x in r.violenceType <==> x in f.violenceType
    ensures r.address == f.address && r.description == f.description
    ensures r.contactEmail == f.contactEmail && r.isAnonymous == f.isAnonymous
  {
    f.(violenceType := Toggle(f.violenceType, t))
  }

  /** Filtering keeps a duplicate-free list duplicate-free. */
  lemma {:induction false} RemoveAllKeepsNoDuplicates(xs: seq<string>, t: string)
    requires NoDuplicates(xs)
    ensures NoDuplicates(RemoveAll(xs, t))
  {
    if xs != [] {
      var rest := RemoveAll(xs[1..], t);
      RemoveAllKeepsNoDuplicates(xs[1..], t);
      if xs[0] != t {
        assert xs[0] !in xs[1..] by {
          forall j | 0 <= j < |xs[1..]| ensures xs[1..][j] != xs[0] {
            assert xs[1..][j] == xs[j + 1];
          }
        }
        assert multiset(rest)[xs[0]] == 0;
        var r := [xs[0]] + rest;
        forall i, j | 0 <= i < j < |r| ensures r[i] != r[j] {
          if i == 0 {
            assert r[j] == rest[j - 1] && r[j] in multiset(rest);
          } else {
            assert r[i] == rest[i - 1] && r[j] == rest[j - 1];
          }
        }
      }
    }
  }

  /** Toggling keeps the list duplicate-free. */
  lemma ToggleKeepsNoDuplicates(xs: seq<string>, t: string)
    requires NoDuplicates(xs)
    ensures NoDuplicates(Toggle(xs, t))
  {
    if t in xs {
      RemoveAllKeepsNoDuplicates(xs, t);
    } else {
      var r := xs + [t];
      forall i, j | 0 <= i < j < |r| ensures r[i] != r[j] {
        if j == |xs| {
          assert r[i] == xs[i];
        }
      }
    }
  }

  /** Toggling one of the offered labels keeps every ticked type an offered label. */
  lemma ToggleKeepsKnownTypes(xs: seq<string>, t: string)
    requires KnownTypes(xs) && t in ViolenceTypes
    ensures KnownTypes(Toggle(xs, t))
  {
  }

  /** Toggling a type that was not ticked twice gives back exactly the same list. */
  lemma ToggleTwiceWhenAbsent(xs: seq<string>, t: string)
    requires t !in xs
    ensures Toggle(Toggle(xs, t), t) == xs
  {
    RemoveAllAppend(xs, [t], t);
    RemoveAllAbsent(xs, t);
    assert RemoveAll([t], t) == [];
  }

  /** Toggling a ticked type twice keeps the same set of types, with the type
      moved to the end of the list (so the list is unchanged only when the
      type was already its last element). */
  lemma ToggleTwiceWhenPresent(xs: seq<string>, t: string)
    requires t in xs
    ensures Toggle(Toggle(xs, t), t) == RemoveAll(xs, t) + [t]
    ensures forall x :: x in Toggle(Toggle(xs, t), t) <==> x in xs
  {
  }

  /** So toggling twice is not the identity on every list: the order changes. */
  lemma ToggleTwiceReorders()
    ensures Toggle(Toggle(["Physical", "Verbal"], "Physical"), "Physical") == ["Verbal", "Physical"]
  {
    assert "Physical" != "Verbal";
    assert RemoveAll(["Verbal"], "Physical") == ["Verbal"];
    assert RemoveAll(["Physical", "Verbal"], "Physical") == ["Verbal"];
  }
}

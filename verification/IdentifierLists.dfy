/** Lists of identifiers as the quantity form reads them from text and writes them back. */
module IdentifierLists {
  import opened Orders
  import opened Decimals

  predicate IsSeparator(c: char) {
    c == '\n' || c == ','
  }

  /** The pieces between separators; a text without any is one piece. */
  function Split(raw: string): (pieces: seq<string>)
    ensures pieces != []
  {
    if raw == "" then [""]
    else
      var rest := Split(raw[1..]);
      if IsSeparator(raw[0]) then [""] + rest else [[raw[0]] + rest[0]] + rest[1..]
  }

  function Join(ids: seq<string>): string {
    if ids == [] then "" else if |ids| == 1 then ids[0] else ids[0] + "\n" + Join(ids[1..])
  }

  function Trimmed(pieces: seq<string>): seq<string> {
    seq(|pieces|, i requires 0 <= i < |pieces| => Trim(pieces[i]))
  }

  /** The pieces that are not blank, trimmed, as they were typed. */
  function NonBlank(raw: string): seq<string> {
    Filter(Trimmed(Split(raw)), id => id != "")
  }

  function IdentifierList(raw: string): seq<string> {
    Sort(NonBlank(raw), Below)
  }

  // ----- trimming -----

  lemma {:induction false} TrimTwice(s: string)
    ensures Trim(Trim(s)) == Trim(s)
    ensures forall c :: c in Trim(s) ==> c in s
    decreases |s|
  {
    if s != "" && IsSpace(s[0]) {
      TrimTwice(s[1..]);
    } else if s != "" && IsSpace(s[|s| - 1]) {
      TrimTwice(s[..|s| - 1]);
    }
  }

  predicate Plain(s: string) {
    forall i :: 0 <= i < |s| ==> !IsSeparator(s[i])
  }

  /** An identifier that survives being written into the form and read back. */
  predicate IsIdentifier(id: string) {
    id != "" && Trim(id) == id && Plain(id)
  }

  /** A list the form gives back unchanged: identifiers, in ascending order, none twice. */
  ghost predicate IsIdentifierList(ids: seq<string>) {
    Ascending(ids, Below) && forall i :: 0 <= i < |ids| ==> IsIdentifier(ids[i])
  }

  // ----- splitting -----

  lemma {:induction false} PiecesArePlain(raw: string)
    ensures forall i :: 0 <= i < |Split(raw)| ==> Plain(Split(raw)[i])
  {
    if raw != "" {
      var rest := Split(raw[1..]);
      PiecesArePlain(raw[1..]);
      if !IsSeparator(raw[0]) {
        assert Plain([raw[0]] + rest[0]);
        assert forall i :: 1 <= i < |rest| ==> rest[1..][i - 1] == rest[i];
      }
    }
  }

  lemma {:induction false} SplitPlain(a: string)
    requires Plain(a)
    ensures Split(a) == [a]
  {
    if a != "" {
      assert Plain(a[1..]) by { assert forall i :: 0 <= i < |a[1..]| ==> a[1..][i] == a[i + 1]; }
      SplitPlain(a[1..]);
      assert a == [a[0]] + a[1..];
    }
  }

  lemma {:induction false} SplitAtNewline(a: string, rest: string)
    requires Plain(a)
    ensures Split(a + "\n" + rest) == [a] + Split(rest)
  {
    var whole := a + "\n" + rest;
    if a == "" {
      assert whole[1..] == rest;
    } else {
      assert Plain(a[1..]) by { assert forall i :: 0 <= i < |a[1..]| ==> a[1..][i] == a[i + 1]; }
      assert whole[1..] == a[1..] + "\n" + rest;
      SplitAtNewline(a[1..], rest);
      assert a == [a[0]] + a[1..];
    }
  }

  /** A comma and a newline separate, whatever stands around them, and nothing else does. */
  lemma {:induction false} SplitAtSeparator(a: string, c: char, b: string)
    requires c == ',' || c == '\n'
    ensures Split(a + [c] + b) == Split(a) + Split(b)
  {
    var whole := a + [c] + b;
    if a == "" {
      assert whole[1..] == b;
    } else {
      assert whole[1..] == a[1..] + [c] + b;
      SplitAtSeparator(a[1..], c, b);
      SplitStep(whole);
      SplitStep(a);
      hide Split;
      FirstPieces(a[0], Split(a[1..]), Split(b));
    }
  }

  /** Splitting with one more character in front. */
  function Before(c: char, pieces: seq<string>): seq<string>
    requires pieces != []
  {
    if IsSeparator(c) then [""] + pieces else [[c] + pieces[0]] + pieces[1..]
  }

  lemma SplitStep(raw: string)
    requires raw != ""
    ensures Split(raw) == Before(raw[0], Split(raw[1..]))
  {
  }

  lemma FirstPieces(c: char, rest: seq<string>, more: seq<string>)
    requires rest != []
    ensures Before(c, rest + more) == Before(c, rest) + more
  {
    assert (rest + more)[1..] == rest[1..] + more;
  }

  lemma NoSeparatorNoSplit(a: string)
    requires ',' !in a && '\n' !in a
    ensures Split(a) == [a]
  {
    assert Plain(a) by {
      forall i | 0 <= i < |a| ensures !IsSeparator(a[i]) {
        assert a[i] in a;
      }
    }
    SplitPlain(a);
  }

  /** Splitting undoes joining. */
  lemma {:induction false} SplitJoin(ids: seq<string>)
    requires forall i :: 0 <= i < |ids| ==> Plain(ids[i])
    ensures Split(Join(ids)) == if ids == [] then [""] else ids
  {
    if |ids| == 1 {
      SplitPlain(ids[0]);
    } else if |ids| > 1 {
      SplitJoin(ids[1..]);
      SplitAtNewline(ids[0], Join(ids[1..]));
    }
  }

  // ----- the list -----

  lemma BelowIsStrict(ids: set<string>)
    ensures Separates(Below, ids)
  {
    forall x: string ensures !Below(x, x) { BelowIrreflexive(x); }
    forall x: string, y: string, z: string | Below(x, y) && Below(y, z) ensures Below(x, z) { BelowTransitive(x, y, z); }
    forall x: string, y: string | x in ids && y in ids ensures x == y || Below(x, y) || Below(y, x) { BelowTotal(x, y); }
  }

  lemma {:induction false} FilterAll<T(!new)>(xs: seq<T>, keep: T -> bool)
    requires forall x :: x in xs ==> keep(x)
    ensures Filter(xs, keep) == xs
  {
    if xs != [] {
      FilterAll(xs[1..], keep);
      assert xs == [xs[0]] + xs[1..];
    }
  }

  /** Some piece of the text trims to `id`. */
  predicate Typed(raw: string, id: string) {
    exists i :: 0 <= i < |Split(raw)| && Trim(Split(raw)[i]) == id
  }

  lemma ReadMember(raw: string, id: string)
    ensures id in IdentifierList(raw) <==> id != "" && Typed(raw, id)
  {
    var trimmed, kept, ids := Trimmed(Split(raw)), NonBlank(raw), IdentifierList(raw);
    FilterKeeps(trimmed, id => id != "");
    SortKeeps(kept, Below);
    TrimmedHas(Split(raw), id);
    hide Sort, Filter, Trimmed, Split, Trim, Distinct;
    assert id in ToSet(ids) <==> id in ToSet(kept);
  }

  lemma TypedIsIdentifier(raw: string, id: string)
    requires id != "" && Typed(raw, id)
    ensures IsIdentifier(id)
  {
    PiecesArePlain(raw);
    var j :| 0 <= j < |Split(raw)| && Trim(Split(raw)[j]) == id;
    TrimTwice(Split(raw)[j]);
    PlainPart(id, Split(raw)[j]);
  }

  /** What is read is made of identifiers and in order; without repetitions it is strictly ascending. */
  lemma ReadInOrder(raw: string)
    ensures var ids := IdentifierList(raw);
            && (forall i :: 0 <= i < |ids| ==> IsIdentifier(ids[i])) && NoDescent(ids, Below)
            && (Distinct(ids) <==> IsIdentifierList(ids))
  {
    var kept, ids := NonBlank(raw), IdentifierList(raw);
    BelowIsStrict(ToSet(kept));
    SortedIffNoDescent(kept, Below);
    BelowIsStrict(ToSet(ids));
    AscendingIsDistinctNoDescent(ids, Below);
    hide IdentifierList, NonBlank, Ascending, NoDescent, Distinct, IsIdentifier, Typed;
    forall i | 0 <= i < |ids| ensures IsIdentifier(ids[i]) {
      ReadMember(raw, ids[i]);
      TypedIsIdentifier(raw, ids[i]);
    }
  }

  /** Whatever was typed, the list holds the pieces that are not blank, as often as they were typed, each a proper
      identifier, in order; free of duplicates it is strictly ascending. */
  lemma ReadList(raw: string)
    ensures var ids := IdentifierList(raw);
            && (forall id :: id in ids <==> id != "" && Typed(raw, id))
            && |ids| == |NonBlank(raw)| && (Distinct(ids) <==> Distinct(NonBlank(raw)))
            && (forall i :: 0 <= i < |ids| ==> IsIdentifier(ids[i])) && NoDescent(ids, Below)
            && (forall i :: 0 <= i < |ids| ==> ids[i] != "" && ',' !in ids[i] && '\n' !in ids[i])
            && (Distinct(ids) <==> IsIdentifierList(ids))
  {
    SortKeeps(NonBlank(raw), Below);
    hide NonBlank, Sort, NoDescent, IsIdentifierList, IsIdentifier, Typed, Distinct;
    ReadInOrder(raw);
    assert IdentifierList(raw) == Sort(NonBlank(raw), Below);
    hide IdentifierList;
    forall i | 0 <= i < |IdentifierList(raw)|
      ensures var id := IdentifierList(raw)[i]; id != "" && ',' !in id && '\n' !in id
    {
      IdentifierHasNoSeparator(IdentifierList(raw)[i]);
    }
    forall id ensures id in IdentifierList(raw) <==> id != "" && Typed(raw, id) {
      ReadMember(raw, id);
    }
  }

  lemma IdentifierHasNoSeparator(id: string)
    requires IsIdentifier(id)
    ensures id != "" && ',' !in id && '\n' !in id
  {
    forall c | c in id ensures c != ',' && c != '\n' {
      var i :| 0 <= i < |id| && id[i] == c;
      assert !IsSeparator(id[i]);
    }
  }

  lemma TrimmedHas(pieces: seq<string>, id: string)
    ensures id in Trimmed(pieces) <==> exists i :: 0 <= i < |pieces| && Trim(pieces[i]) == id
  {
    var trimmed := Trimmed(pieces);
    assert forall i :: 0 <= i < |pieces| ==> trimmed[i] == Trim(pieces[i]);
    if i :| 0 <= i < |pieces| && Trim(pieces[i]) == id {
      assert trimmed[i] == id;
    }
  }

  lemma PlainPart(part: string, s: string)
    requires Plain(s) && forall c :: c in part ==> c in s
    ensures Plain(part)
  {
    forall i | 0 <= i < |part| ensures !IsSeparator(part[i]) {
      assert part[i] in s;
    }
  }

  /** A list is read back as it was written exactly when its members are identifiers and in order; repetitions
      come back as well. */
  lemma ReadWritten(ids: seq<string>)
    ensures IdentifierList(Join(ids)) == ids
       <==> NoDescent(ids, Below) && forall i :: 0 <= i < |ids| ==> IsIdentifier(ids[i])
  {
    ReadInOrder(Join(ids));
    hide NoDescent, IsIdentifierList;
    if NoDescent(ids, Below) && forall i :: 0 <= i < |ids| ==> IsIdentifier(ids[i]) {
      SplitJoin(ids);
      if ids == [] {
        assert Trimmed([""]) == [""];
        assert Filter([""], id => id != "") == [];
      } else {
        assert Trimmed(ids) == ids;
        FilterAll(ids, id => id != "");
        BelowIsStrict(ToSet(ids));
        SortedIffNoDescent(ids, Below);
      }
    }
  }

  /** In particular a list the form could have submitted is read back. */
  lemma ListWritten(ids: seq<string>)
    requires IsIdentifierList(ids)
    ensures IdentifierList(Join(ids)) == ids && Distinct(ids)
  {
    BelowIsStrict(ToSet(ids));
    AscendingIsDistinctNoDescent(ids, Below);
    ReadWritten(ids);
  }
}

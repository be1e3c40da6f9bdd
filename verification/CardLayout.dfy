/** Fixed-column lines: fields at increasing columns, spaces everywhere else. */
module CardLayout {
  import opened Decimal

  datatype Field = Field(off: nat, text: string)
  {
    function End(): nat { off + |text| }
  }

  ghost predicate Ordered(fields: seq<Field>) {
    forall i :: 0 < i < |fields| ==> fields[i - 1].End() <= fields[i].off
  }

  function LineEnd(fields: seq<Field>): nat {
    if fields == [] then 0 else fields[|fields| - 1].End()
  }

  /** The line with every field at its column. */
  ghost function Render(fields: seq<Field>): (s: string)
    requires Ordered(fields)
    ensures |s| == LineEnd(fields)
  {
    if fields == [] then ""
    else
      var before, f := fields[..|fields| - 1], fields[|fields| - 1];
      assert before != [] ==> before[|before| - 1] == fields[|fields| - 2];
      Render(before) + Spaces(f.off - LineEnd(before)) + f.text
  }

  /** Every field is found at its own column. */
  lemma {:induction false} FieldAt(fields: seq<Field>, i: nat)
    requires Ordered(fields) && i < |fields|
    ensures fields[i].End() <= LineEnd(fields)
    ensures Render(fields)[fields[i].off..fields[i].End()] == fields[i].text
  {
    var n := |fields| - 1;
    var before := fields[..n];
    if i < n {
      FieldAt(before, i);
      assert before[i] == fields[i];
      assert Render(fields)[..LineEnd(before)] == Render(before);
    }
  }

  /** Between one field and the next there are only spaces. */
  lemma {:induction false} GapAt(fields: seq<Field>, i: nat, c: nat)
    requires Ordered(fields) && i + 1 < |fields| && fields[i].End() <= c < fields[i + 1].off
    ensures c < LineEnd(fields) && Render(fields)[c] == ' '
  {
    var n := |fields| - 1;
    var before := fields[..n];
    if i + 1 < n {
      GapAt(before, i, c);
      assert Render(fields)[..LineEnd(before)] == Render(before);
    } else {
      assert before[|before| - 1] == fields[i];
    }
  }

  // ---- Writing a line in place ----

  const LINE := 69

  /** The buffer holds the fields so far and spaces after them. */
  ghost predicate Filled(line: array<char>, fields: seq<Field>)
    requires Ordered(fields)
    reads line
  {
    line.Length == LINE + 1 && LineEnd(fields) <= LINE
    && line[..] == Render(fields) + Spaces(LINE - LineEnd(fields)) + ['\0']
  }

  /** Overwrite len characters at off. */
  method Place(line: array<char>, off: nat, src: string, len: nat)
    requires len <= |src| && off + len <= line.Length
    modifies line
    ensures line[..] == old(line[..])[..off] + src[..len] + old(line[..])[off + len..]
  {
    for i := 0 to len
      invariant line[..] == old(line[..])[..off] + src[..i] + old(line[..])[off + i..]
    {
      line[off + i] := src[i];
    }
  }

  lemma OrderedPrefix(fields: seq<Field>, i: nat)
    requires Ordered(fields) && i <= |fields|
    ensures Ordered(fields[..i])
    ensures i < |fields| ==> LineEnd(fields[..i]) <= fields[i].off
  {
  }

  lemma Spliced(p: string, was: string, f: Field)
    requires |p| <= f.off && f.End() <= LINE && was == p + Spaces(LINE - |p|) + ['\0']
    ensures was[..f.off] + f.text + was[f.End()..]
         == p + Spaces(f.off - |p|) + f.text + Spaces(LINE - f.End()) + ['\0']
  {
    assert was[..f.off] == p + Spaces(f.off - |p|);
    assert was[f.End()..] == Spaces(LINE - f.End()) + ['\0'];
  }

  /** Placing a field after all the others. */
  method PlaceNext(line: array<char>, ghost before: seq<Field>, f: Field)
    requires Ordered(before) && Filled(line, before)
    requires LineEnd(before) <= f.off && f.End() <= LINE
    modifies line
    ensures Ordered(before + [f]) && Filled(line, before + [f])
  {
    ghost var next := before + [f];
    ghost var was := line[..];
    assert next[..|next| - 1] == before;
    Spliced(Render(before), was, f);
    Place(line, f.off, f.text, |f.text|);
    assert f.text[..|f.text|] == f.text;
  }

  /** Placing fields one after the other on a blank line. */
  method WriteFields(line: array<char>, fields: seq<Field>)
    requires Ordered(fields) && Filled(line, [])
    requires forall i :: 0 <= i < |fields| ==> fields[i].End() <= LINE
    modifies line
    ensures Filled(line, fields)
  {
    assert fields[..0] == [];
    for i := 0 to |fields|
      invariant Ordered(fields[..i]) && Filled(line, fields[..i])
    {
      OrderedPrefix(fields, i);
      assert fields[..i + 1] == fields[..i] + [fields[i]];
      PlaceNext(line, fields[..i], fields[i]);
    }
    assert fields[..|fields|] == fields;
  }

  /** A buffer of spaces. */
  method Blank() returns (line: array<char>)
    ensures fresh(line) && Filled(line, [])
  {
    line := new char[LINE + 1];
    for i := 0 to LINE
      invariant forall k :: 0 <= k < i ==> line[k] == ' '
    {
      line[i] := ' ';
    }
    line[LINE] := '\0';
    assert line[..] == Spaces(LINE) + ['\0'];
  }
}

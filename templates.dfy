/** The generators' template literals as data: runs of fixed text and the
    `${...}` holes between them. */
module Templates {
  import opened Strings

  datatype Piece<H> = Text(text: string) | Hole(hole: H)

  /** The template with each hole replaced by its value under `fill`. */
  function Render<H>(t: seq<Piece<H>>, fill: H -> string): string
    decreases |t|
  {
    if t == [] then []
    else
      Render(t[..|t| - 1], fill) +
      match t[|t| - 1]
      case Text(s) => s
      case Hole(h) => fill(h)
  }

  /** Rendering distributes over concatenation of templates. */
  lemma {:induction false} RenderAppend<H>(a: seq<Piece<H>>, b: seq<Piece<H>>, fill: H -> string)
    ensures Render(a + b, fill) == Render(a, fill) + Render(b, fill)
    decreases |b|
  {
    if b == [] {
      assert a + b == a;
    } else {
      assert (a + b)[..|a + b| - 1] == a + b[..|b| - 1];
      RenderAppend(a, b[..|b| - 1], fill);
    }
  }

  /** Every hole's value appears in the rendered text. */
  lemma RenderHole<H>(t: seq<Piece<H>>, fill: H -> string, i: nat)
    requires i < |t| && t[i].Hole?
    ensures Contains(Render(t, fill), fill(t[i].hole))
  {
    assert t == t[..i] + [t[i]] + t[i + 1..];
    RenderAppend(t[..i] + [t[i]], t[i + 1..], fill);
    RenderAppend(t[..i], [t[i]], fill);
    assert Render([t[i]], fill) == fill(t[i].hole) by {
      assert [t[i]][..0] == [];
    }
    ContainsMiddle(Render(t[..i], fill), fill(t[i].hole), Render(t[i + 1..], fill));
  }

  /** The text of any run of consecutive pieces occurs in the rendered text. */
  lemma RenderSlice<H>(t: seq<Piece<H>>, fill: H -> string, i: nat, j: nat)
    requires i <= j <= |t|
    ensures Contains(Render(t, fill), Render(t[i..j], fill))
  {
    var a, b, c := t[..i], t[i..j], t[j..];
    assert t == a + b + c by {
      assert a + b == t[..j];
    }
    RenderAppend(a, b, fill);
    RenderAppend(a + b, c, fill);
    assert Render(t, fill) == Render(a, fill) + Render(b, fill) + Render(c, fill);
    ContainsMiddle(Render(a, fill), Render(b, fill), Render(c, fill));
  }

  /** Text, hole, text rendered on their own. */
  lemma RenderTextHoleText<H>(fill: H -> string, a: string, h: H, b: string)
    ensures Render([Text(a), Hole(h), Text(b)], fill) == a + fill(h) + b
  {
    var t: seq<Piece<H>> := [Text(a), Hole(h), Text(b)];
    assert t[..2] == [Text(a), Hole(h)];
    assert t[..1] == [Text(a)] && t[..2][..1] == t[..1];
    assert t[..1][..0] == [];
    assert Render(t[..1], fill) == a;
    assert Render(t[..2], fill) == a + fill(h);
  }

  /** A run of text, hole, text occurs in the rendered text with the hole
      filled in. */
  lemma RenderRun3<H>(t: seq<Piece<H>>, fill: H -> string, i: nat, a: string, h: H, b: string)
    requires i + 3 <= |t| && t[i] == Text(a) && t[i + 1] == Hole(h) && t[i + 2] == Text(b)
    ensures Contains(Render(t, fill), a + fill(h) + b)
  {
    assert t[i..i + 3] == [Text(a), Hole(h), Text(b)];
    RenderTextHoleText(fill, a, h, b);
    RenderSlice(t, fill, i, i + 3);
  }

  /** The same for text, hole, text, hole, text. */
  lemma RenderRun5<H>(t: seq<Piece<H>>, fill: H -> string, i: nat, a: string, h: H, b: string, h': H, c: string)
    requires i + 5 <= |t| && t[i] == Text(a) && t[i + 1] == Hole(h) && t[i + 2] == Text(b)
    requires t[i + 3] == Hole(h') && t[i + 4] == Text(c)
    ensures Contains(Render(t, fill), a + fill(h) + b + fill(h') + c)
  {
    var first: seq<Piece<H>> := [Text(a), Hole(h), Text(b)];
    var run := first + [Hole(h'), Text(c)];
    assert t[i..i + 5] == run;
    RenderTextHoleText(fill, a, h, b);
    var last: seq<Piece<H>> := [Hole(h'), Text(c)];
    assert Render(last, fill) == fill(h') + c by {
      assert last[..1] == [Hole(h')];
      assert last[..1][..0] == [];
      assert Render(last[..1], fill) == fill(h');
    }
    RenderAppend(first, last, fill);
    var x := a + fill(h) + b;
    assert x + (fill(h') + c) == x + fill(h') + c;
    RenderSlice(t, fill, i, i + 5);
  }

  /** Text that occurs in the rendering of a template occurs in the
      rendering of any template that starts with it. */
  lemma RenderBefore<H>(t: seq<Piece<H>>, b: seq<Piece<H>>, fill: H -> string, x: string)
    requires Contains(Render(t, fill), x)
    ensures Contains(Render(t + b, fill), x)
  {
    RenderAppend(t, b, fill);
    ContainsBefore(Render(t, fill), Render(b, fill), x);
  }

  /** The same for any template that ends with it. */
  lemma RenderAfter<H>(a: seq<Piece<H>>, t: seq<Piece<H>>, fill: H -> string, x: string)
    requires Contains(Render(t, fill), x)
    ensures Contains(Render(a + t, fill), x)
  {
    RenderAppend(a, t, fill);
    ContainsAfter(Render(a, fill), Render(t, fill), x);
  }

  /** Two fillings that agree on every hole the template uses render the same
      text. */
  lemma {:induction false} RenderAgree<H>(t: seq<Piece<H>>, f: H -> string, g: H -> string)
    requires forall i :: 0 <= i < |t| && t[i].Hole? ==> f(t[i].hole) == g(t[i].hole)
    ensures Render(t, f) == Render(t, g)
    decreases |t|
  {
    if t != [] {
      var init := t[..|t| - 1];
      assert forall i :: 0 <= i < |init| && init[i].Hole? ==> f(init[i].hole) == g(init[i].hole) by {
        forall i | 0 <= i < |init| && init[i].Hole? ensures f(init[i].hole) == g(init[i].hole) {
          assert init[i] == t[i];
        }
      }
      RenderAgree(init, f, g);
    }
  }
}

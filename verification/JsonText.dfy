/**
 Flattening a JSON document into lines with an explicit stack, against the recursive
 definition.
 */
module JsonText {
  import opened Basics

  const MAX_JSON_VALUES := 100_000

  /** A decoded document; a scalar is the text it is written as. */
  datatype Json =
    | Null
    | Scalar(text: string)
    | Object(members: seq<(string, Json)>)
    | Array(items: seq<Json>)

  function Digits(n: nat): string {
    if n < 10 then ["0123456789"[n]] else Digits(n / 10) + ["0123456789"[n % 10]]
  }

  function Member(prefix: string, key: string): string {
    if prefix != "" then prefix + "." + key else key
  }

  function Element(prefix: string, index: nat): string {
    prefix + "[" + Digits(index) + "]"
  }

  function LineOf(prefix: string, text: string): string {
    if prefix != "" then prefix + ": " + text else text
  }

  function Children(v: Json): nat {
    match v
    case Object(members) => |members|
    case Array(items) => |items|
    case _ => 0
  }

  datatype Pending = Pending(prefix: string, value: Json)

  /** The child of a value, with its path. */
  function Child(prefix: string, v: Json, i: nat): (p: Pending)
    requires i < Children(v)
    ensures p.value < v
  {
    match v
    case Object(members) => Pending(Member(prefix, members[i].0), members[i].1)
    case Array(items) => Pending(Element(prefix, i), items[i])
  }

  // ----------------------------------------------------------------------
  // The recursive definition
  // ----------------------------------------------------------------------

  /** The lines of a document: its scalars in document order, each with its path. */
  function Lines(prefix: string, v: Json): seq<string>
    decreases v, Children(v) + 1
  {
    if v.Scalar? then [LineOf(prefix, v.text)] else LinesFrom(prefix, v, 0)
  }

  function LinesFrom(prefix: string, v: Json, i: nat): seq<string>
    decreases v, if i < Children(v) then Children(v) - i else 0
  {
    if i >= Children(v) then []
    else var child := Child(prefix, v, i); Lines(child.prefix, child.value) + LinesFrom(prefix, v, i + 1)
  }

  /** One entry for each value in preorder: its line, if it has one. */
  function Visits(prefix: string, v: Json): seq<Option<string>>
    decreases v, Children(v) + 1
  {
    [if v.Scalar? then Some(LineOf(prefix, v.text)) else None] + VisitsFrom(prefix, v, 0)
  }

  function VisitsFrom(prefix: string, v: Json, i: nat): seq<Option<string>>
    decreases v, if i < Children(v) then Children(v) - i else 0
  {
    if i >= Children(v) then []
    else var child := Child(prefix, v, i); Visits(child.prefix, child.value) + VisitsFrom(prefix, v, i + 1)
  }

  function Shown(visits: seq<Option<string>>): seq<string> {
    if visits == [] then [] else (if visits[0].Some? then [visits[0].value] else []) + Shown(visits[1..])
  }

  lemma {:induction false} ShownConcat(a: seq<Option<string>>, b: seq<Option<string>>)
    ensures Shown(a + b) == Shown(a) + Shown(b)
  {
    if a == [] {
      assert a + b == b;
    } else {
      var s := a + b;
      assert s[0] == a[0] && s[1..] == a[1..] + b;
      ShownConcat(a[1..], b);
    }
  }

  lemma {:induction false} VisitsShowLines(prefix: string, v: Json)
    ensures Shown(Visits(prefix, v)) == Lines(prefix, v)
    decreases v, Children(v) + 1
  {
    var rest := VisitsFrom(prefix, v, 0);
    VisitsFromShowLines(prefix, v, 0);
    if v.Scalar? {
      assert rest == [];
      OneShown(Some(LineOf(prefix, v.text)));
    } else {
      OneShown(None);
      ShownConcat([None], rest);
    }
  }

  lemma OneShown(visit: Option<string>)
    ensures Shown([visit]) == if visit.Some? then [visit.value] else []
    ensures [visit] + [] == [visit]
  {
    var one := [visit];
    assert one[1..] == [];
  }

  lemma {:induction false} VisitsFromShowLines(prefix: string, v: Json, i: nat)
    ensures Shown(VisitsFrom(prefix, v, i)) == LinesFrom(prefix, v, i)
    decreases v, if i < Children(v) then Children(v) - i else 0
  {
    if i < Children(v) {
      var child := Child(prefix, v, i);
      VisitsShowLines(child.prefix, child.value);
      VisitsFromShowLines(prefix, v, i + 1);
      ShownConcat(Visits(child.prefix, child.value), VisitsFrom(prefix, v, i + 1));
    }
  }

  // ----------------------------------------------------------------------
  // The stack
  // ----------------------------------------------------------------------

  /** What is still to be visited, from the top of the stack down. */
  function Remaining(pending: seq<Pending>): seq<Option<string>> {
    if pending == [] then []
    else
      var top := pending[|pending| - 1];
      Visits(top.prefix, top.value) + Remaining(pending[..|pending| - 1])
  }

  lemma Pushed(pending: seq<Pending>, p: Pending)
    ensures Remaining(pending + [p]) == Visits(p.prefix, p.value) + Remaining(pending)
  {
    assert (pending + [p])[..|pending|] == pending;
  }

  /** Pushes the children of a value, the last one first. */
  method PushChildren(pending0: seq<Pending>, prefix: string, v: Json) returns (pending: seq<Pending>)
    ensures Remaining(pending) == VisitsFrom(prefix, v, 0) + Remaining(pending0)
  {
    pending := pending0;
    var i: nat := Children(v);
    while i > 0
      invariant i <= Children(v)
      invariant Remaining(pending) == VisitsFrom(prefix, v, i) + Remaining(pending0)
    {
      i := i - 1;
      var child := Child(prefix, v, i);
      Pushed(pending, child);
      Regroup(Visits(child.prefix, child.value), VisitsFrom(prefix, v, i + 1), Remaining(pending0));
      pending := pending + [child];
    }
  }

  /** The lines of the first values of a document in preorder, and whether there were more
      than the limit. */
  method Flatten(value: Json) returns (lines: seq<string>, omitted: bool)
    ensures omitted <==> |Visits("", value)| > MAX_JSON_VALUES
    ensures lines == Shown(Take(Visits("", value), MAX_JSON_VALUES))
    ensures lines <= Lines("", value) && (!omitted ==> lines == Lines("", value))
  {
    ghost var all := Visits("", value);
    ghost var done: seq<Option<string>> := [];
    VisitsShowLines("", value);
    lines, omitted := [], false;
    var values := 0;
    var pending := [Pending("", value)];
    Pushed([], pending[0]);
    assert [] + [pending[0]] == pending;
    while pending != []
      invariant all == done + Remaining(pending) && |done| == values <= MAX_JSON_VALUES
      invariant lines == Shown(done)
      decreases |all| - values
    {
      var top := pending[|pending| - 1];
      Popped(pending);
      pending := pending[..|pending| - 1];
      values := values + 1;
      ghost var rest := VisitsFrom(top.prefix, top.value, 0) + Remaining(pending);
      if values > MAX_JSON_VALUES {
        omitted := true;
        CutShows(done, [VisitOf(top)] + rest);
        return;
      }
      if top.value.Scalar? {
        lines := lines + [LineOf(top.prefix, top.value.text)];
        assert rest == Remaining(pending);
      } else {
        pending := PushChildren(pending, top.prefix, top.value);
      }
      Stepped(done, VisitOf(top), rest);
      done := done + [VisitOf(top)];
    }
    assert done + [] == done;
  }

  function VisitOf(p: Pending): Option<string> {
    if p.value.Scalar? then Some(LineOf(p.prefix, p.value.text)) else None
  }

  lemma Popped(pending: seq<Pending>)
    requires pending != []
    ensures
      var top, init := pending[|pending| - 1], pending[..|pending| - 1];
      && Remaining(pending) == [VisitOf(top)] + (VisitsFrom(top.prefix, top.value, 0) + Remaining(init))
      && (top.value.Scalar? ==> VisitsFrom(top.prefix, top.value, 0) == [])
  {
    var top := pending[|pending| - 1];
    Regroup([VisitOf(top)], VisitsFrom(top.prefix, top.value, 0), Remaining(pending[..|pending| - 1]));
  }

  lemma Stepped(done: seq<Option<string>>, visit: Option<string>, rest: seq<Option<string>>)
    ensures done + ([visit] + rest) == (done + [visit]) + rest
    ensures Shown(done + [visit]) == Shown(done) + if visit.Some? then [visit.value] else []
  {
    Regroup(done, [visit], rest);
    OneShown(visit);
    ShownConcat(done, [visit]);
  }

  lemma CutShows(done: seq<Option<string>>, rest: seq<Option<string>>)
    requires |done| == MAX_JSON_VALUES && rest != []
    ensures Take(done + rest, MAX_JSON_VALUES) == done
    ensures Shown(done) <= Shown(done + rest)
  {
    ShownConcat(done, rest);
  }
}

/** Index keys of the entity registry.

    An index over component types t1, ..., tn is named by the type names
    joined with "," in the order the caller gave them. This module defines
    that join, a splitting function that undoes it, and the consequences:
    different type lists give different keys as long as no type name itself
    contains a comma, and the key depends on the order of the names.
 */
module IndexKeys {

  const Separator: char := ','

  /** True when `name` cannot be confused with a separator. */
  predicate CommaFree(name: string) {
    Separator !in name
  }

  predicate AllCommaFree(names: seq<string>) {
    forall i :: 0 <= i < |names| ==> CommaFree(names[i])
  }

  /** The names joined with "," between neighbours, as JavaScript's
      `Array.prototype.join(",")` does ("" for no names). */
  function Join(names: seq<string>): (key: string)
    ensures |names| == 1 ==> key == names[0]
    decreases |names|
  {
    if |names| == 0 then ""
    else if |names| == 1 then names[0]
    else names[0] + [Separator] + Join(names[1..])
  }

  /** The comma-separated fields of `s`, empty fields included. */
  function Split(s: string): (fields: seq<string>)
    ensures |fields| >= 1
    ensures AllCommaFree(fields)
    decreases |s|
  {
    if s == [] then [""]
    else if s[0] == Separator then [""] + Split(s[1..])
    else
      var rest := Split(s[1..]);
      [[s[0]] + rest[0]] + rest[1..]
  }

  /** Splitting a comma-free prefix followed by more text glues the prefix
      onto the first field of the rest. */
  lemma {:induction false} SplitPrefix(x: string, y: string)
    requires CommaFree(x)
    ensures Split(x + y) == [x + Split(y)[0]] + Split(y)[1..]
    decreases |x|
  {
    if x == [] {
      assert x + y == y;
      assert x + Split(y)[0] == Split(y)[0];
      assert Split(y) == [Split(y)[0]] + Split(y)[1..];
    } else {
      assert (x + y)[0] == x[0];
      assert (x + y)[1..] == x[1..] + y;
      SplitPrefix(x[1..], y);
      assert [x[0]] + (x[1..] + Split(y)[0]) == x + Split(y)[0];
    }
  }

  /** Split undoes Join for a non-empty list of comma-free names. */
  lemma {:induction false} SplitJoin(names: seq<string>)
    requires |names| >= 1 && AllCommaFree(names)
    ensures Split(Join(names)) == names
    decreases |names|
  {
    if |names| == 1 {
      SplitPrefix(names[0], "");
      assert names[0] + "" == names[0];
    } else {
      var tail := Join(names[1..]);
      SplitJoin(names[1..]);
      assert names[0] + [Separator] + tail == names[0] + ([Separator] + tail);
      SplitPrefix(names[0], [Separator] + tail);
      assert ([Separator] + tail)[1..] == tail;
      assert Split([Separator] + tail) == [""] + names[1..];
      assert names[0] + "" == names[0];
      assert names == [names[0]] + names[1..];
    }
  }

  /** Two non-empty lists of comma-free type names have the same key only
      when they are the same list. */
  lemma JoinInjective(a: seq<string>, b: seq<string>)
    requires |a| >= 1 && AllCommaFree(a)
    requires |b| >= 1 && AllCommaFree(b)
    ensures Join(a) == Join(b) <==> a == b
  {
    if Join(a) == Join(b) {
      SplitJoin(a);
      SplitJoin(b);
    }
  }

  /** One more name extends the key by a separator and that name. */
  lemma {:induction false} JoinSnoc(a: seq<string>, t: string)
    requires |a| >= 1
    ensures Join(a + [t]) == Join(a) + [Separator] + t
    decreases |a|
  {
    if |a| == 1 {
      assert (a + [t])[1..] == [t];
    } else {
      assert (a + [t])[1..] == a[1..] + [t];
      JoinSnoc(a[1..], t);
    }
  }

  /** The key of an index over a list of types differs from the key over that
      list with one more type, whatever the names: the key only grows, so
      indexes over {A} and {A, B} never share a key. */
  lemma ExtendedListNewKey(a: seq<string>, t: string)
    requires |a| >= 1
    ensures Join(a) != Join(a + [t])
  {
    JoinSnoc(a, t);
    assert |Join(a + [t])| > |Join(a)|;
  }

  /** The key keeps the caller's order: the same two types named in the
      opposite order give a different key. */
  lemma {:induction false} OrderMatters(x: string, y: string)
    requires CommaFree(x) && CommaFree(y) && x != y
    ensures Join([x, y]) != Join([y, x])
  {
    assert [x, y] != [y, x] by { assert [x, y][0] != [y, x][0]; }
    JoinInjective([x, y], [y, x]);
  }

  /** A type name that contains a comma is indistinguishable, by key, from
      two names: "a,b" alone and "a" then "b" give the same key. */
  lemma CommaNamesCollide()
    ensures Join(["a,b"]) == Join(["a", "b"])
    ensures ["a,b"] != ["a", "b"]
  {
  }
}

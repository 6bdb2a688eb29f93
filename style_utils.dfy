/**
 * The two style helpers: `cx` joins the class names given, skipping the
 * falsy arguments, and `css` merges inline style objects into a fresh one,
 * skipping the falsy arguments, the later style winning for a property both
 * set.
 */
module StyleUtils {
  import opened Wrappers
  import Seqs
  import Strs
  import Assoc

  /** An argument of `cx`: a string, or `false`, `null` or `undefined`. */
  datatype ClassArg = Name(name: string) | NoClass

  /** `Boolean(arg)`: a string is truthy when it is not empty. */
  predicate IsClass(a: ClassArg)
  {
    a.Name? && a.name != ""
  }

  /** The names of the truthy arguments, in argument order. */
  function ClassNames(args: seq<ClassArg>): (r: seq<string>)
    ensures |r| <= |args|
    ensures forall i :: 0 <= i < |r| ==> r[i] != ""
    decreases |args|
  {
    if args == [] then []
    else (if IsClass(args[0]) then [args[0].name] else []) + ClassNames(args[1..])
  }

  /** `cx(...args)`: the truthy arguments joined with single spaces. */
  function Cx(args: seq<ClassArg>): string
  {
    Strs.Join(ClassNames(args), " ")
  }

  /**
   * Every truthy argument's name is kept, and every kept name is a truthy
   * argument's.
   */
  lemma {:induction false} ClassNamesSpec(args: seq<ClassArg>)
    ensures forall i :: 0 <= i < |args| && IsClass(args[i]) ==> args[i].name in ClassNames(args)
    ensures forall j :: 0 <= j < |ClassNames(args)| ==>
              exists i :: 0 <= i < |args| && IsClass(args[i]) && args[i].name == ClassNames(args)[j]
    decreases |args|
  {
    if args != [] {
      var rest := args[1..];
      ClassNamesSpec(rest);
      var head := if IsClass(args[0]) then [args[0].name] else [];
      assert ClassNames(args) == head + ClassNames(rest);
      forall i | 0 <= i < |args| && IsClass(args[i])
        ensures args[i].name in ClassNames(args)
      {
        if i > 0 {
          assert args[i] == rest[i - 1];
          assert args[i].name in ClassNames(rest);
        } else {
          assert head == [args[0].name];
        }
      }
      forall j | 0 <= j < |ClassNames(args)|
        ensures exists i :: 0 <= i < |args| && IsClass(args[i]) && args[i].name == ClassNames(args)[j]
      {
        if j < |head| {
          assert IsClass(args[0]) && args[0].name == ClassNames(args)[j];
        } else {
          assert ClassNames(args)[j] == ClassNames(rest)[j - |head|];
          var i :| 0 <= i < |rest| && IsClass(rest[i]) && rest[i].name == ClassNames(rest)[j - |head|];
          assert args[i + 1] == rest[i];
          assert IsClass(args[i + 1]) && args[i + 1].name == ClassNames(args)[j];
        }
      }
    } else {
      assert ClassNames(args) == [];
    }
  }

  /** The class attribute is empty exactly when no argument is truthy. */
  lemma CxEmpty(args: seq<ClassArg>)
    ensures Cx(args) == "" <==> forall i :: 0 <= i < |args| ==> !IsClass(args[i])
  {
    ClassNamesSpec(args);
    Strs.JoinEmpty(ClassNames(args), " ");
    if Cx(args) != "" {
      assert ClassNames(args) != [];
      var i :| 0 <= i < |args| && IsClass(args[i]) && args[i].name == ClassNames(args)[0];
    }
  }

  /** Each truthy argument appears in the class attribute. */
  lemma CxContains(args: seq<ClassArg>, i: int) returns (offset: int)
    requires 0 <= i < |args| && IsClass(args[i])
    ensures 0 <= offset && offset + |args[i].name| <= |Cx(args)|
    ensures Cx(args)[offset..offset + |args[i].name|] == args[i].name
  {
    ClassNamesSpec(args);
    var names := ClassNames(args);
    var k :| 0 <= k < |names| && names[k] == args[i].name;
    offset := Strs.JoinContainsPart(names, " ", k);
  }

  /**
   * When no name holds a space, splitting the class attribute at spaces
   * gives back the truthy arguments' names in order.
   */
  lemma CxSplit(args: seq<ClassArg>)
    requires forall i :: 0 <= i < |args| && args[i].Name? ==> ' ' !in args[i].name
    requires exists i :: 0 <= i < |args| && IsClass(args[i])
    ensures Strs.Split(Cx(args), " ") == ClassNames(args)
  {
    var names := ClassNames(args);
    var i :| 0 <= i < |args| && IsClass(args[i]);
    ClassNameKept(args, i);
    forall j | 0 <= j < |names|
      ensures ' ' !in names[j]
    {
      var a := ClassNameSource(args, j);
    }
    assert [' '] == " ";
    Strs.SplitJoin(names, ' ');
  }

  /** A truthy argument's name is kept. */
  lemma ClassNameKept(args: seq<ClassArg>, i: int)
    requires 0 <= i < |args| && IsClass(args[i])
    ensures args[i].name in ClassNames(args)
  {
    ClassNamesSpec(args);
  }

  /** A kept name is the name of a truthy argument, at the returned position. */
  lemma ClassNameSource(args: seq<ClassArg>, j: int) returns (i: int)
    requires 0 <= j < |ClassNames(args)|
    ensures 0 <= i < |args| && IsClass(args[i]) && args[i].name == ClassNames(args)[j]
  {
    ClassNamesSpec(args);
    var names := ClassNames(args);
    assert names[j] in names;
    i :| 0 <= i < |args| && IsClass(args[i]) && args[i].name == names[j];
  }

  /** An argument of `css`: a style object (its properties in order), or `false`, `null` or `undefined`. */
  datatype StyleArg<V> = Style(props: Assoc.Entries<string, V>) | NoStyle

  /** `Boolean(style)`: every object is truthy. */
  predicate IsStyle<V>(s: StyleArg<V>)
  {
    s.Style?
  }

  /** `Object.assign(target, source)`: each property of the source set on the target in turn. */
  function Assign<V(!new)>(target: Assoc.Entries<string, V>, props: Assoc.Entries<string, V>): Assoc.Entries<string, V>
    decreases |props|
  {
    if props == [] then target
    else Assign(Assoc.Set(target, props[0].0, props[0].1), props[1..])
  }

  /** `Object.assign(target, ...sources)`: the sources in turn; a falsy one adds nothing. */
  function AssignAll<V(!new)>(target: Assoc.Entries<string, V>, sources: seq<StyleArg<V>>): Assoc.Entries<string, V>
    decreases |sources|
  {
    if sources == [] then target
    else AssignAll(Assign(target, if sources[0].Style? then sources[0].props else []), sources[1..])
  }

  /** `css(...styles)`: the truthy styles assigned in order onto a fresh empty object. */
  function Css<V(==,!new)>(styles: seq<StyleArg<V>>): Assoc.Entries<string, V>
  {
    AssignAll([], Seqs.Filter(styles, IsStyle))
  }

  /** The value of the last property named `k`. */
  function LastValue<V>(props: Assoc.Entries<string, V>, k: string): Option<V>
    decreases |props|
  {
    if props == [] then None
    else
      var later := LastValue(props[1..], k);
      if later.Some? then later
      else if props[0].0 == k then Some(props[0].1)
      else None
  }

  /** The value of `k` in the last style that sets it. */
  function StyleValue<V>(styles: seq<StyleArg<V>>, k: string): Option<V>
    decreases |styles|
  {
    if styles == [] then None
    else
      var later := StyleValue(styles[1..], k);
      if later.Some? then later
      else if styles[0].Style? then LastValue(styles[0].props, k)
      else None
  }

  /** A style sets `k` exactly when `k` is one of its properties. */
  lemma {:induction false} LastValueSome<V>(props: Assoc.Entries<string, V>, k: string)
    ensures LastValue(props, k).Some? <==> k in Assoc.Keys(props)
    decreases |props|
  {
    if props != [] {
      assert Assoc.Keys(props) == [props[0].0] + Assoc.Keys(props[1..]);
      LastValueSome(props[1..], k);
    }
  }

  /** After assigning a source, a property has the source's last value for it, or else the target's. */
  lemma {:induction false} AssignGet<V(!new)>(target: Assoc.Entries<string, V>, props: Assoc.Entries<string, V>, x: string)
    ensures Assoc.Get(Assign(target, props), x) ==
              if LastValue(props, x).Some? then LastValue(props, x) else Assoc.Get(target, x)
    decreases |props|
  {
    if props != [] {
      var t := Assoc.Set(target, props[0].0, props[0].1);
      AssignGet(t, props[1..], x);
      Assoc.GetSet(target, props[0].0, props[0].1, x);
    }
  }

  lemma {:induction false} AssignAllGet<V(!new)>(target: Assoc.Entries<string, V>, sources: seq<StyleArg<V>>, x: string)
    ensures Assoc.Get(AssignAll(target, sources), x) ==
              if StyleValue(sources, x).Some? then StyleValue(sources, x) else Assoc.Get(target, x)
    decreases |sources|
  {
    if sources != [] {
      var props := if sources[0].Style? then sources[0].props else [];
      AssignGet(target, props, x);
      AssignAllGet(Assign(target, props), sources[1..], x);
    }
  }

  /** Dropping the falsy styles changes no property's value. */
  lemma {:induction false} StyleValueFilter<V(!new)>(styles: seq<StyleArg<V>>, x: string)
    ensures StyleValue(Seqs.Filter(styles, IsStyle), x) == StyleValue(styles, x)
    decreases |styles|
  {
    if styles != [] {
      StyleValueFilter(styles[1..], x);
    }
  }

  /**
   * A property of the merged style has the value of the last truthy style
   * that sets it, and the merged style has no other property.
   */
  lemma CssGet<V(!new)>(styles: seq<StyleArg<V>>, x: string)
    ensures Assoc.Get(Css(styles), x) == StyleValue(styles, x)
    ensures x in Assoc.Keys(Css(styles)) <==> StyleValue(styles, x).Some?
  {
    AssignAllGet([], Seqs.Filter(styles, IsStyle), x);
    StyleValueFilter(styles, x);
    Assoc.GetSome(Css(styles), x);
  }

  /** A later style wins: when the last style sets `x`, the merged value is its value. */
  lemma LastStyleWins<V(!new)>(styles: seq<StyleArg<V>>, props: Assoc.Entries<string, V>, x: string)
    requires x in Assoc.Keys(props)
    ensures Assoc.Get(Css(styles + [Style(props)]), x) == LastValue(props, x)
  {
    CssGet(styles + [Style(props)], x);
    LastValueSome(props, x);
    StyleValueSnoc(styles, props, x);
  }

  lemma {:induction false} StyleValueSnoc<V>(styles: seq<StyleArg<V>>, props: Assoc.Entries<string, V>, x: string)
    requires LastValue(props, x).Some?
    ensures StyleValue(styles + [Style(props)], x) == LastValue(props, x)
    decreases |styles|
  {
    if styles == [] {
      assert [Style(props)][1..] == [];
    } else {
      assert (styles + [Style(props)])[1..] == styles[1..] + [Style(props)];
      StyleValueSnoc(styles[1..], props, x);
    }
  }

  /**
   * Assigning keeps the keys distinct and the target's keys first, in their
   * order.
   */
  lemma {:induction false} AssignKeys<V(!new)>(target: Assoc.Entries<string, V>, props: Assoc.Entries<string, V>)
    requires Assoc.DistinctKeys(target)
    ensures Assoc.DistinctKeys(Assign(target, props))
    ensures Assoc.Keys(target) <= Assoc.Keys(Assign(target, props))
    decreases |props|
  {
    if props != [] {
      var t := Assoc.Set(target, props[0].0, props[0].1);
      Assoc.SetKeys(target, props[0].0, props[0].1);
      AssignKeys(t, props[1..]);
    }
  }

  lemma {:induction false} AssignAllKeys<V(!new)>(target: Assoc.Entries<string, V>, sources: seq<StyleArg<V>>)
    requires Assoc.DistinctKeys(target)
    ensures Assoc.DistinctKeys(AssignAll(target, sources))
    ensures Assoc.Keys(target) <= Assoc.Keys(AssignAll(target, sources))
    decreases |sources|
  {
    if sources != [] {
      var props := if sources[0].Style? then sources[0].props else [];
      AssignKeys(target, props);
      AssignAllKeys(Assign(target, props), sources[1..]);
    }
  }

  /**
   * The merged style has each property once, and the properties of the
   * earlier styles come first, in their order.
   */
  lemma CssKeys<V(!new)>(styles: seq<StyleArg<V>>, more: seq<StyleArg<V>>)
    ensures Assoc.DistinctKeys(Css(styles))
    ensures Assoc.Keys(Css(styles)) <= Assoc.Keys(Css(styles + more))
  {
    AssignAllKeys([], Seqs.Filter(styles, IsStyle));
    Seqs.FilterAppend(styles, more, IsStyle);
    AssignAllAppend([], Seqs.Filter(styles, IsStyle), Seqs.Filter(more, IsStyle));
    AssignAllKeys(Css(styles), Seqs.Filter(more, IsStyle));
  }

  lemma {:induction false} AssignAllAppend<V(!new)>(target: Assoc.Entries<string, V>, a: seq<StyleArg<V>>, b: seq<StyleArg<V>>)
    ensures AssignAll(target, a + b) == AssignAll(AssignAll(target, a), b)
    decreases |a|
  {
    if a == [] {
      assert a + b == b;
    } else {
      assert (a + b)[1..] == a[1..] + b;
      var props := if a[0].Style? then a[0].props else [];
      AssignAllAppend(Assign(target, props), a[1..], b);
    }
  }

  /** With no truthy style the result is the empty object. */
  lemma CssEmpty<V(!new)>(styles: seq<StyleArg<V>>)
    requires forall i :: 0 <= i < |styles| ==> !IsStyle(styles[i])
    ensures Css(styles) == []
  {
    Seqs.FilterNone(styles, IsStyle);
  }
}

// On-disk addresses of workflow stages and loop items.
module Options {
  datatype Option<+T> = None | Some(value: T)
}

module Addresses {
  import opened Options

  type Name = string

  // One directory level below the run directory: a stage's own directory, or the numbered
  // directory of one loop item.
  datatype Segment = Stage(name: Name) | Item(number: nat)

  type Address = seq<Segment>
  type Path = seq<Name>

  // The active loop items, outermost first: each loop's path and the number of its current item.
  type ItemStack = seq<(Path, nat)>

  // The dotted engine path of an address: its stage names, without the item numbers.
  function PathOf(a: Address): (p: Path)
  {
    if a == [] then []
    else if a[|a| - 1].Stage? then PathOf(a[..|a| - 1]) + [a[|a| - 1].name]
    else PathOf(a[..|a| - 1])
  }

  // The item ancestry of an address.
  function StackOf(a: Address): (s: ItemStack)
  {
    if a == [] then []
    else if a[|a| - 1].Stage? then StackOf(a[..|a| - 1])
    else StackOf(a[..|a| - 1]) + [(PathOf(a[..|a| - 1]), a[|a| - 1].number)]
  }

  // The item number of a loop path; of several entries for one path the last counts.
  function ItemOf(stack: ItemStack, path: Path): Option<nat>
  {
    if stack == [] then None
    else if stack[|stack| - 1].0 == path then Some(stack[|stack| - 1].1)
    else ItemOf(stack[..|stack| - 1], path)
  }

  // The on-disk address of an engine path: every loop's item number follows the loop's own name.
  function AddressFor(path: Path, stack: ItemStack): (a: Address)
  {
    if path == [] then []
    else
      var outer := AddressFor(path[..|path| - 1], stack) + [Stage(path[|path| - 1])];
      var item := ItemOf(stack, path);
      if item.Some? then outer + [Item(item.value)] else outer
  }

  // Item numbers directly follow a stage name.
  ghost predicate Proper(a: Address)
  {
    forall i | 0 <= i < |a| && a[i].Item? :: i > 0 && a[i - 1].Stage?
  }

  // The loops of the stack are nested stages on the way to path, outermost first.
  ghost predicate Ancestry(path: Path, stack: ItemStack)
  {
    && (forall i | 0 <= i < |stack| :: stack[i].0 != [] && stack[i].0 <= path)
    && (forall i, j | 0 <= i < j < |stack| :: |stack[i].0| < |stack[j].0|)
  }

  lemma {:induction false} StackBelow(a: Address)
    requires Proper(a)
    ensures Ancestry(PathOf(a), StackOf(a))
    ensures a != [] && a[|a| - 1].Stage? ==> forall i | 0 <= i < |StackOf(a)| :: |StackOf(a)[i].0| < |PathOf(a)|
  {
    if a != [] {
      var b := a[..|a| - 1];
      assert forall i | 0 <= i < |b| :: b[i] == a[i];
      StackBelow(b);
      if a[|a| - 1].Item? {
        assert b[|b| - 1].Stage?;
        assert PathOf(b) != [];
      } else {
        forall i | 0 <= i < |StackOf(a)|
          ensures StackOf(a)[i].0 <= PathOf(a) && |StackOf(a)[i].0| < |PathOf(a)|
        {
          assert StackOf(b)[i].0 <= PathOf(b);
        }
      }
    }
  }

  lemma {:induction false} ItemMissing(stack: ItemStack, path: Path)
    requires forall i | 0 <= i < |stack| :: stack[i].0 != path
    ensures ItemOf(stack, path) == None
  {
    if stack != [] { ItemMissing(stack[..|stack| - 1], path); }
  }

  // Entries for longer paths do not matter.
  lemma {:induction false} AddressIgnores(path: Path, stack: ItemStack, entry: (Path, nat))
    requires |entry.0| > |path|
    ensures AddressFor(path, stack + [entry]) == AddressFor(path, stack)
  {
    if path != [] {
      AddressIgnores(path[..|path| - 1], stack, entry);
      assert (stack + [entry])[..|stack|] == stack;
    }
  }

  lemma Appended(b: Address, last: Segment)
    ensures PathOf(b + [last]) == (if last.Stage? then PathOf(b) + [last.name] else PathOf(b))
    ensures StackOf(b + [last]) == (if last.Stage? then StackOf(b) else StackOf(b) + [(PathOf(b), last.number)])
  {
    assert (b + [last])[..|b|] == b;
  }

  lemma AddressStep(outer: Path, name: Name, stack: ItemStack)
    ensures var item := ItemOf(stack, outer + [name]);
      AddressFor(outer + [name], stack) ==
        AddressFor(outer, stack) + [Stage(name)] + (if item.Some? then [Item(item.value)] else [])
  {
    assert (outer + [name])[..|outer|] == outer;
  }

  lemma ItemLast(stack: ItemStack, path: Path, number: nat)
    ensures ItemOf(stack + [(path, number)], path) == Some(number)
  {
  }

  // An address is rebuilt from its path and its item ancestry.
  lemma {:induction false} AddressRebuilt(a: Address)
    requires Proper(a)
    ensures AddressFor(PathOf(a), StackOf(a)) == a
    decreases |a|
  {
    if a != [] {
      var b, last := a[..|a| - 1], a[|a| - 1];
      assert a == b + [last];
      assert forall i | 0 <= i < |b| :: b[i] == a[i];
      Appended(b, last);
      if last.Stage? {
        AddressRebuilt(b);
        StackBelow(a);
        ItemMissing(StackOf(a), PathOf(a));
        AddressStep(PathOf(b), last.name, StackOf(b));
      } else {
        var c, loop := b[..|b| - 1], b[|b| - 1];
        assert b == c + [loop] && loop.Stage?;
        assert forall i | 0 <= i < |c| :: c[i] == a[i];
        RebuiltItem(c, loop.name, last.number);
      }
    }
  }

  lemma {:induction false} RebuiltItem(c: Address, name: Name, number: nat)
    requires Proper(c)
    ensures var a := c + [Stage(name)] + [Item(number)]; AddressFor(PathOf(a), StackOf(a)) == a
    decreases |c| + 1
  {
    var b := c + [Stage(name)];
    Appended(c, Stage(name));
    Appended(b, Item(number));
    AddressRebuilt(c);
    var entry := (PathOf(b), number);
    AddressIgnores(PathOf(c), StackOf(c), entry);
    AddressStep(PathOf(c), name, StackOf(c) + [entry]);
    ItemLast(StackOf(c), PathOf(b), number);
  }

  // The stage a loop item dispatches, and the item itself, are addressed below the item.
  lemma StageAddress(base: Address, name: Name)
    requires Proper(base)
    ensures AddressFor(PathOf(base) + [name], StackOf(base)) == base + [Stage(name)]
    ensures PathOf(base + [Stage(name)]) == PathOf(base) + [name] && StackOf(base + [Stage(name)]) == StackOf(base)
    ensures Proper(base + [Stage(name)])
  {
    var a := base + [Stage(name)];
    assert a[..|a| - 1] == base;
    assert forall i | 0 <= i < |base| :: a[i] == base[i];
    AddressRebuilt(a);
  }

  lemma ItemAddress(at: Address, number: nat)
    requires Proper(at) && at != [] && at[|at| - 1].Stage?
    ensures PathOf(at + [Item(number)]) == PathOf(at)
    ensures StackOf(at + [Item(number)]) == StackOf(at) + [(PathOf(at), number)]
    ensures Proper(at + [Item(number)])
  {
    Appended(at, Item(number));
    hide PathOf, StackOf;
    var a := at + [Item(number)];
    assert forall i | 0 <= i < |at| :: a[i] == at[i];
  }

  lemma AncestryOuter(outer: Path, name: Name, rest: ItemStack)
    requires Ancestry(outer + [name], rest) && forall i | 0 <= i < |rest| :: rest[i].0 != outer + [name]
    ensures Ancestry(outer, rest)
  {
    forall i | 0 <= i < |rest|
      ensures rest[i].0 <= outer
    {
      assert rest[i].0 <= outer + [name];
      assert |rest[i].0| <= |outer|;
    }
  }

  lemma {:induction false} AddressParts(path: Path, stack: ItemStack)
    requires Ancestry(path, stack)
    ensures PathOf(AddressFor(path, stack)) == path && StackOf(AddressFor(path, stack)) == stack
    decreases |path|
  {
    var n := |stack|;
    if path == [] {
      assert stack == [];
    } else {
      var outer, name := path[..|path| - 1], path[|path| - 1];
      assert path == outer + [name];
      AddressStep(outer, name, stack);
      var a := AddressFor(outer, stack) + [Stage(name)];
      if n > 0 && stack[n - 1].0 == path {
        var rest, number := stack[..n - 1], stack[n - 1].1;
        assert stack == rest + [(path, number)];
        AncestryOuter(outer, name, rest);
        AddressParts(outer, rest);
        AddressIgnores(outer, rest, (path, number));
        Appended(AddressFor(outer, rest), Stage(name));
        Appended(a, Item(number));
      } else {
        forall i | 0 <= i < n
          ensures stack[i].0 != path
        {
          if i < n - 1 { assert |stack[i].0| < |stack[n - 1].0| && stack[n - 1].0 <= path; }
        }
        ItemMissing(stack, path);
        AncestryOuter(outer, name, stack);
        AddressParts(outer, stack);
        Appended(AddressFor(outer, stack), Stage(name));
      }
    }
  }

  // Different paths or different item ancestries have different addresses.
  lemma AddressInjective(p: Path, s: ItemStack, q: Path, t: ItemStack)
    requires Ancestry(p, s) && Ancestry(q, t)
    ensures AddressFor(p, s) == AddressFor(q, t) <==> p == q && s == t
  {
    AddressParts(p, s);
    AddressParts(q, t);
  }
}

// Directory names: a stage keeps its own name, an item is its number in decimal.
module DirectoryNames {
  import opened Options
  import opened Addresses

  function Digit(d: nat): char
    requires d < 10
  {
    '0' + d as char
  }

  function Decimal(n: nat): string
  {
    if n < 10 then [Digit(n)] else Decimal(n / 10) + [Digit(n % 10)]
  }

  predicate IsNumeric(s: string)
  {
    s != [] && forall i | 0 <= i < |s| :: '0' <= s[i] <= '9'
  }

  function Parse(s: string): nat
    requires forall i | 0 <= i < |s| :: '0' <= s[i] <= '9'
  {
    if s == [] then 0 else 10 * Parse(s[..|s| - 1]) + (s[|s| - 1] - '0') as nat
  }

  // A number is read back from its directory name.
  lemma {:induction false} DecimalRead(n: nat)
    ensures IsNumeric(Decimal(n)) && Parse(Decimal(n)) == n
  {
    if n < 10 {
      assert Decimal(n)[..0] == [];
    } else {
      DecimalRead(n / 10);
      assert Decimal(n)[..|Decimal(n)| - 1] == Decimal(n / 10);
    }
  }

  function Rendered(s: Segment): string
  {
    match s
    case Stage(name) => name
    case Item(number) => Decimal(number)
  }

  function RenderedAll(a: Address): seq<string>
  {
    if a == [] then [] else RenderedAll(a[..|a| - 1]) + [Rendered(a[|a| - 1])]
  }

  predicate NonNumeric(a: Address)
  {
    forall i | 0 <= i < |a| && a[i].Stage? :: !IsNumeric(a[i].name)
  }

  // Two segments that are one directory name.
  predicate SameName(s: Segment, t: Segment)
  {
    s == t || (s.Stage? && t.Item? && s.name == Decimal(t.number)) || (s.Item? && t.Stage?
        && t.name == Decimal(s.number))
  }

  lemma RenderedSame(s: Segment, t: Segment)
    ensures Rendered(s) == Rendered(t) <==> SameName(s, t)
  {
    if s.Item? { DecimalRead(s.number); }
    if t.Item? { DecimalRead(t.number); }
  }

  // Exactly which addresses share a directory: those that differ only in a stage named like the
  // number of the item in the same place.
  lemma {:induction false} DirectoriesShared(a: Address, b: Address)
    ensures RenderedAll(a) == RenderedAll(b) <==> |a| == |b| && forall i | 0 <= i < |a| :: SameName(a[i], b[i])
  {
    if a != [] && b != [] {
      var n := |a| - 1;
      var a1, b1 := a[..n], b[..|b| - 1];
      assert forall i | 0 <= i < n :: a1[i] == a[i];
      assert forall i | 0 <= i < |b1| :: b1[i] == b[i];
      DirectoriesShared(a1, b1);
      RenderedSame(a[n], b[|b| - 1]);
      if RenderedAll(a) == RenderedAll(b) {
        assert RenderedAll(a)[..|RenderedAll(a)| - 1] == RenderedAll(a1);
        assert RenderedAll(b)[..|RenderedAll(b)| - 1] == RenderedAll(b1);
        assert RenderedAll(a)[|RenderedAll(a)| - 1] == RenderedAll(b)[|RenderedAll(b)| - 1];
        forall i | 0 <= i < |a|
          ensures SameName(a[i], b[i])
        {
          if i < n { assert a1[i] == a[i] && b1[i] == b[i]; }
        }
      }
    }
  }

  // With stage names that are not numbers, different addresses are different directories.
  lemma DirectoriesDistinct(a: Address, b: Address)
    requires NonNumeric(a) && NonNumeric(b)
    ensures RenderedAll(a) == RenderedAll(b) <==> a == b
  {
    DirectoriesShared(a, b);
    forall i | 0 <= i < |a| && i < |b|
      ensures SameName(a[i], b[i]) ==> a[i] == b[i]
    {
      if a[i].Item? { DecimalRead(a[i].number); }
      if b[i].Item? { DecimalRead(b[i].number); }
    }
  }

  // The address function itself does share one: between a loop item, and a stage named like its
  // number whose path goes through the loop without an item.
  lemma NumericNameCollides(loop: Name, n: nat)
    ensures var stage, item := AddressFor([loop, Decimal(n)], []), AddressFor([loop], [([loop], n)]);
      && Ancestry([loop, Decimal(n)], []) && Ancestry([loop], [([loop], n)])
      && stage != item && RenderedAll(stage) == RenderedAll(item)
  {
    AddressStep([loop], Decimal(n), []);
    AddressStep([], loop, []);
    AddressStep([], loop, [([loop], n)]);
    assert [] + [loop] == [loop] && [loop] + [Decimal(n)] == [loop, Decimal(n)];
    ItemLast([], [loop], n);
    assert [] + [([loop], n)] == [([loop], n)];
    var stage, item := AddressFor([loop, Decimal(n)], []), AddressFor([loop], [([loop], n)]);
    assert stage == [Stage(loop), Stage(Decimal(n))] && item == [Stage(loop), Item(n)];
    DirectoriesShared(stage, item);
  }
}

/** The file-system composite of 5compositeDP.js: a component is a file with a
    size, a directory with an ordered list of children, or a bare component of
    the abstract base class. Components are modelled as values (trees); the
    operations that change a directory return the new directory. */
module FileSystem {
  import opened Common

  datatype Component =
    | Plain(name: string)
    | File(name: string, size: int)
    | Directory(name: string, children: seq<Component>)

  /** The base class's throwing defaults. */
  datatype CompositeError = NotImplemented | CannotAddToFile | CannotRemoveFromFile | NotADirectory

  /** getSize: a file's own size, a directory's children's sizes added up, and
      a bare component throws, which makes every directory above it throw. */
  function GetSize(c: Component): Result<int, CompositeError>
    decreases c, 1
  {
    match c
    case Plain(_) => Err(NotImplemented)
    case File(_, size) => Ok(size)
    case Directory(_, children) => ChildrenSize(children)
  }

  /** The reduce over a directory's children. */
  function ChildrenSize(children: seq<Component>): Result<int, CompositeError>
    decreases children, 0
  {
    if children == [] then Ok(0)
    else match GetSize(children[0])
      case Err(e) => Err(e)
      case Ok(first) =>
        match ChildrenSize(children[1..])
        case Err(e) => Err(e)
        case Ok(rest) => Ok(first + rest)
  }

  /** Directory.add appends; a file or a bare component cannot take children. */
  function Add(c: Component, child: Component): (r: Result<Component, CompositeError>)
    ensures r.Ok? <==> c.Directory?
    ensures r.Ok? ==> r.value.Directory? && r.value.name == c.name
  {
    match c
    case Directory(name, children) => Ok(Directory(name, children + [child]))
    case _ => Err(CannotAddToFile)
  }

  /** The filter of Directory.remove: every child equal to `component` goes. */
  function Without(children: seq<Component>, component: Component): seq<Component> {
    if children == [] then []
    else (if children[0] == component then [] else [children[0]]) + Without(children[1..], component)
  }

  function Remove(c: Component, component: Component): (r: Result<Component, CompositeError>)
    ensures r.Ok? <==> c.Directory?
    ensures r.Ok? ==> r.value.Directory? && r.value.name == c.name
  {
    match c
    case Directory(name, children) => Ok(Directory(name, Without(children, component)))
    case _ => Err(CannotRemoveFromFile)
  }

  function GetChildren(c: Component): (r: Result<seq<Component>, CompositeError>)
    ensures r.Ok? <==> c.Directory?
  {
    match c
    case Directory(_, children) => Ok(children)
    case _ => Err(NotADirectory)
  }

  /** Directory.findByName: the first direct child with the name; deeper levels are not searched. */
  function FindByName(children: seq<Component>, name: string): (r: Option<Component>)
    ensures r.Some? ==> exists i | 0 <= i < |children| :: children[i] == r.value && r.value.name == name &&
                          forall j | 0 <= j < i :: children[j].name != name
    ensures r.None? <==> forall i | 0 <= i < |children| :: children[i].name != name
    decreases |children|
  {
    if children == [] then None
    else if children[0].name == name then Some(children[0])
    else
      var r := FindByName(children[1..], name);
      assert forall i | 1 <= i < |children| :: children[i] == children[1..][i - 1];
      if r.Some? then
        var i :| 0 <= i < |children[1..]| && children[1..][i] == r.value && r.value.name == name &&
                 forall j | 0 <= j < i :: children[1..][j].name != name;
        assert children[i + 1] == r.value;
        r
      else r
  }

  // ---------------------------------------------------------------------
  // An independent account of size: the files of the tree

  /** The sizes of every file in the tree, depth first. */
  function FileSizes(c: Component): seq<int>
    decreases c, 1
  {
    match c
    case Plain(_) => []
    case File(_, size) => [size]
    case Directory(_, children) => AllFileSizes(children)
  }

  function AllFileSizes(children: seq<Component>): seq<int>
    decreases children, 0
  {
    if children == [] then [] else FileSizes(children[0]) + AllFileSizes(children[1..])
  }

  /** Whether a bare component sits anywhere in the tree. */
  predicate HasPlain(c: Component)
    decreases c, 1
  {
    match c
    case Plain(_) => true
    case File(_, _) => false
    case Directory(_, children) => AnyPlain(children)
  }

  predicate AnyPlain(children: seq<Component>)
    decreases children, 0
  {
    children != [] && (HasPlain(children[0]) || AnyPlain(children[1..]))
  }

  function Total(sizes: seq<int>): int {
    if sizes == [] then 0 else sizes[0] + Total(sizes[1..])
  }

  lemma {:induction false} TotalConcat(a: seq<int>, b: seq<int>)
    ensures Total(a + b) == Total(a) + Total(b)
    decreases |a|
  {
    if a != [] {
      assert (a + b)[1..] == a[1..] + b;
      TotalConcat(a[1..], b);
    } else {
      assert a + b == b;
    }
  }

  /** The size of a tree is the total of its files' sizes, and it throws
      exactly when a bare component is somewhere in it. */
  lemma {:induction false} SizeIsFileTotal(c: Component)
    ensures GetSize(c).Err? <==> HasPlain(c)
    ensures GetSize(c).Ok? ==> GetSize(c).value == Total(FileSizes(c))
    decreases c, 1
  {
    match c
    case Plain(_) =>
    case File(_, size) =>
    case Directory(_, children) => ChildrenSizeIsFileTotal(children);
  }

  lemma {:induction false} ChildrenSizeIsFileTotal(children: seq<Component>)
    ensures ChildrenSize(children).Err? <==> AnyPlain(children)
    ensures ChildrenSize(children).Ok? ==> ChildrenSize(children).value == Total(AllFileSizes(children))
    decreases children, 0
  {
    if children != [] {
      SizeIsFileTotal(children[0]);
      ChildrenSizeIsFileTotal(children[1..]);
      TotalConcat(FileSizes(children[0]), AllFileSizes(children[1..]));
    }
  }

  /** An empty directory has size 0. */
  lemma EmptyDirectorySize(name: string)
    ensures GetSize(Directory(name, [])) == Ok(0)
  {
  }

  lemma {:induction false} ChildrenSizeAppend(children: seq<Component>, child: Component)
    ensures ChildrenSize(children + [child]).Ok? <==> ChildrenSize(children).Ok? && GetSize(child).Ok?
    ensures ChildrenSize(children + [child]).Ok? ==>
      ChildrenSize(children + [child]).value == ChildrenSize(children).value + GetSize(child).value
    decreases |children|
  {
    if children == [] {
      assert children + [child] == [child];
      assert [child][1..] == [];
    } else {
      assert (children + [child])[1..] == children[1..] + [child];
      ChildrenSizeAppend(children[1..], child);
    }
  }

  /** Adding a child appends it after the existing ones and adds its size to the directory's. */
  lemma AddAppends(d: Component, child: Component)
    requires d.Directory?
    ensures GetChildren(Add(d, child).value) == Ok(d.children + [child])
    ensures GetSize(Add(d, child).value).Ok? <==> GetSize(d).Ok? && GetSize(child).Ok?
    ensures GetSize(Add(d, child).value).Ok? ==> GetSize(Add(d, child).value).value == GetSize(d).value + GetSize(child).value
  {
    ChildrenSizeAppend(d.children, child);
  }

  /** How many children equal the component. */
  function Occurrences(children: seq<Component>, component: Component): nat {
    if children == [] then 0
    else (if children[0] == component then 1 else 0) + Occurrences(children[1..], component)
  }

  /** `size` added up `n` times. */
  function Repeated(n: nat, size: int): int {
    if n == 0 then 0 else Repeated(n - 1, size) + size
  }

  lemma {:induction false} RepeatedIsProduct(n: nat, size: int)
    ensures Repeated(n, size) == n * size
  {
    if n > 0 {
      RepeatedIsProduct(n - 1, size);
      assert n * size == (n - 1) * size + size;
    }
  }

  lemma {:induction false} WithoutSize(children: seq<Component>, component: Component, size: int)
    requires ChildrenSize(children).Ok? && GetSize(component) == Ok(size)
    ensures ChildrenSize(Without(children, component)).Ok?
    ensures ChildrenSize(Without(children, component)).value + Repeated(Occurrences(children, component), size) ==
            ChildrenSize(children).value
    decreases |children|
  {
    if children != [] {
      var first, rest := children[0], children[1..];
      WithoutSize(rest, component, size);
      if first == component {
        assert Without(children, component) == Without(rest, component);
      } else {
        var kept := Without(rest, component);
        assert Without(children, component) == [first] + kept;
        assert ([first] + kept)[0] == first && ([first] + kept)[1..] == kept;
      }
    }
  }

  /** Removing a component of size `size` takes `size` off the directory's size
      once per occurrence; a directory whose size is defined keeps a defined size. */
  lemma RemoveSize(d: Component, component: Component, size: int)
    requires d.Directory? && GetSize(d).Ok? && GetSize(component) == Ok(size)
    ensures GetSize(Remove(d, component).value).Ok?
    ensures GetSize(Remove(d, component).value).value + Occurrences(d.children, component) * size == GetSize(d).value
  {
    WithoutSize(d.children, component, size);
    RepeatedIsProduct(Occurrences(d.children, component), size);
  }

  /** Removing drops every occurrence of the component and keeps every other child. */
  lemma {:induction false} WithoutExactly(children: seq<Component>, component: Component)
    ensures component !in Without(children, component)
    ensures forall x | x in children && x != component :: x in Without(children, component)
    ensures forall x | x in Without(children, component) :: x in children
    ensures component !in children ==> Without(children, component) == children
    decreases |children|
  {
    if children != [] {
      WithoutExactly(children[1..], component);
      assert children == [children[0]] + children[1..];
    }
  }

  lemma RemoveDrops(d: Component, component: Component)
    requires d.Directory?
    ensures var r := GetChildren(Remove(d, component).value).value;
      component !in r && (forall x | x in d.children && x != component :: x in r) &&
      (forall x | x in r :: x in d.children) &&
      (component !in d.children ==> r == d.children)
  {
    WithoutExactly(d.children, component);
  }

  /** The example tree: Documents with resume.pdf (250) and report.docx (500),
      Pictures holding Vacation with beach.jpg (1024) and sunset.png (2048), and
      notes.txt (100), 3922 bytes in all. */
  function ExampleTree(): Component {
    Directory("Root", [
      Directory("Documents", [File("resume.pdf", 250), File("report.docx", 500)]),
      Directory("Pictures", [Directory("Vacation", [File("beach.jpg", 1024), File("sunset.png", 2048)])]),
      File("notes.txt", 100)])
  }

  lemma ExampleSize()
    ensures GetSize(ExampleTree()) == Ok(3922)
    ensures FindByName(ExampleTree().children, "Pictures").Some?
    ensures FindByName(ExampleTree().children, "Vacation").None?
  {
    var documents := Directory("Documents", [File("resume.pdf", 250), File("report.docx", 500)]);
    var vacation := Directory("Vacation", [File("beach.jpg", 1024), File("sunset.png", 2048)]);
    assert GetSize(documents) == Ok(750) by {
      assert documents.children[1..][1..] == [];
    }
    assert GetSize(vacation) == Ok(3072) by {
      assert vacation.children[1..][1..] == [];
    }
    assert GetSize(Directory("Pictures", [vacation])) == Ok(3072) by {
      assert [vacation][1..] == [];
    }
    assert ExampleTree().children[1..][1..][1..] == [];
    assert ExampleTree().children[1].name == "Pictures";
  }
}

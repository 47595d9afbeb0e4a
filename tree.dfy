/**
 * `TreeNode` (src/util/tree.ts): the routing trie.  Each node has a name, a
 * value, a flag saying whether its name is a variable segment, the name of
 * its variable child (`varname`, "" for none) and its children by name.
 *
 * The trie is a value here: an operation returns the new trie, and a node
 * is named by the path of exact child names that leads to it from the root.
 * A thrown exception is returned beside the trie, because `add` changes a
 * node before it recurses.
 */
module Tree {
  import opened Js
  import opened Errors

  datatype Node<V> = Node(name: string, value: Option<V>, variable: bool, varname: string,
                          children: map<string, Node<V>>)

  /** `new TreeNode()`: the root, with no name and no value. */
  function Root<V>(): Node<V> {
    Node("", None, false, "", map[])
  }

  // ---------------------------------------------------------------------
  // Variable segments: `/\{[0-9a-zA-Z_\-]*}/`, searched anywhere in the name

  predicate IsVarChar(c: char) {
    ('0' <= c <= '9') || ('a' <= c <= 'z') || ('A' <= c <= 'Z') || c == '_' || c == '-'
  }

  /** The rest of a group after its `{`: variable characters, then `}`. */
  predicate GroupAt(t: string) {
    |t| > 0 && (t[0] == '}' || (IsVarChar(t[0]) && GroupAt(t[1..])))
  }

  /** `name.match(re)`: some position starts a group. */
  predicate IsVariable(s: string) {
    |s| > 0 && ((s[0] == '{' && GroupAt(s[1..])) || IsVariable(s[1..]))
  }

  /** A `{`, any run of variable characters, and a `}`, somewhere in `s`. */
  ghost predicate HasVarGroup(s: string) {
    exists i, j :: 0 <= i < j < |s| && s[i] == '{' && s[j] == '}' && forall k :: i < k < j ==> IsVarChar(s[k])
  }

  // ---------------------------------------------------------------------
  // Operations

  /** The segment `path[0]` names: an empty list reads `undefined`. */
  function Head(path: seq<string>): string {
    if |path| == 0 then "undefined" else path[0]
  }

  /** `path.splice(1)`: what is left after the first segment. */
  function Rest(path: seq<string>): seq<string> {
    if |path| == 0 then [] else path[1..]
  }

  function AlreadyExists(name: string): Exception {
    Native("Error", "Child \"" + name + "\" already exists")
  }

  function OneVariable(varname: string, name: string): Exception {
    Native("Error", "Element set can have only one variable name \"" + varname + "\" and trying to insert \"" + name + "\"")
  }

  /** A fresh node, as `new TreeNode(name, value[, true])` makes it. */
  function Fresh<V>(name: string, value: V): Node<V> {
    Node(name, Some(value), IsVariable(name), "", map[])
  }

  /**
   * `add(name)` with a single name: it must not be a child yet.  A variable
   * leaf is compared with the first character of the name, not the name.
   */
  function AddLeaf<V>(t: Node<V>, name: string, value: V): (Node<V>, Result<()>) {
    if name in t.children then (t, Err(AlreadyExists(name)))
    else if IsVariable(name) then
      if t.varname != "" && t.varname != [name[0]] then (t, Err(OneVariable(t.varname, [name[0]])))
      else (t.(varname := name, children := t.children[name := Fresh(name, value)]), Ok(()))
    else (t.(children := t.children[name := Fresh(name, value)]), Ok(()))
  }

  /**
   * `add(name, value)` with a list of names: the trie after the call and
   * whether it threw.  An existing child is passed the rest of the list; a
   * new one is attached first and then passed the rest.
   */
  function Add<V>(t: Node<V>, name: seq<string>, value: V): (Node<V>, Result<()>)
    decreases |name|, t
  {
    if |name| == 1 then AddLeaf(t, name[0], value)
    else
      var key := Head(name);
      if key in t.children then
        var (sub, r) := Add(t.children[key], Rest(name), value);
        (t.(children := t.children[key := sub]), r)
      else if |name| == 0 then (t, Err(TypeError))
      else if IsVariable(key) && t.varname != "" && t.varname != key then (t, Err(OneVariable(t.varname, key)))
      else
        var t1 := if IsVariable(key) then t.(varname := key) else t;
        var (sub, r) := Add(Fresh(key, value), name[1..], value);
        (t1.(children := t1.children[key := sub]), r)
  }

  /** `resolve(path)`: the exact child first, else the variable child; null when neither leads anywhere. */
  function Resolve<V>(t: Node<V>, path: seq<string>): Option<V>
    decreases t
  {
    var key := Head(path);
    if key in t.children then
      if |path| == 1 then t.children[key].value else Resolve(t.children[key], Rest(path))
    else if t.varname != "" then
      if t.varname !in t.children then None
      else if |path| == 1 then t.children[t.varname].value
      else Resolve(t.children[t.varname], Rest(path))
    else None
  }

  /** The node reached from `t` by exact child names. */
  function NodeAt<V>(t: Node<V>, path: seq<string>): Option<Node<V>>
    decreases |path|
  {
    if |path| == 0 then Some(t)
    else if path[0] in t.children then NodeAt(t.children[path[0]], path[1..])
    else None
  }

  /** `remove()` on the node at `path`: it leaves its parent's children; the root has no parent. */
  function Remove<V>(t: Node<V>, path: seq<string>): Node<V>
    decreases |path|
  {
    if |path| == 0 then t
    else if |path| == 1 then t.(children := t.children - {path[0]})
    else if path[0] in t.children then t.(children := t.children[path[0] := Remove(t.children[path[0]], path[1..])])
    else t
  }

  /** `siblings()` of the node at `path`: its parent's children, null for the root. */
  function Siblings<V>(t: Node<V>, path: seq<string>): (r: Option<map<string, Node<V>>>)
    ensures |path| == 0 ==> r.None?
    ensures 0 < |path| && NodeAt(t, path).Some? ==>
      (r.Some? && path[|path| - 1] in r.value && Some(r.value[path[|path| - 1]]) == NodeAt(t, path))
  {
    if |path| == 0 then None
    else
      NodeAtSnoc(t, path[..|path| - 1], path[|path| - 1]);
      assert path[..|path| - 1] + [path[|path| - 1]] == path;
      var parent := NodeAt(t, path[..|path| - 1]);
      if parent.None? then None else Some(parent.value.children)
  }

  /** `sibling(name)` of the node at `path`. */
  function Sibling<V>(t: Node<V>, path: seq<string>, name: string): (r: Option<Node<V>>)
    ensures |path| == 0 ==> r.None?
    ensures 0 < |path| && NodeAt(t, path).Some? && name == path[|path| - 1] ==> r == NodeAt(t, path)
  {
    var s := Siblings(t, path);
    if s.None? || name !in s.value then None else Some(s.value[name])
  }

  // ---------------------------------------------------------------------
  // Properties

  lemma {:induction false} GroupAtIff(t: string)
    ensures GroupAt(t) <==> exists j :: 0 <= j < |t| && t[j] == '}' && forall k :: 0 <= k < j ==> IsVarChar(t[k])
  {
    if |t| > 0 {
      GroupAtIff(t[1..]);
      if GroupAt(t) && t[0] != '}' {
        var j :| 0 <= j < |t[1..]| && t[1..][j] == '}' && forall k :: 0 <= k < j ==> IsVarChar(t[1..][k]);
        assert t[j + 1] == '}';
        assert forall k :: 0 <= k < j + 1 ==> IsVarChar(t[k]) by {
          forall k | 0 <= k < j + 1 ensures IsVarChar(t[k]) {
            if k > 0 { assert t[k] == t[1..][k - 1]; }
          }
        }
      }
      if !GroupAt(t) {
        forall j | 0 <= j < |t| && t[j] == '}'
          ensures exists k :: 0 <= k < j && !IsVarChar(t[k])
        {
          assert j != 0;
          assert t[1..][j - 1] == '}';
          if IsVarChar(t[0]) {
            var k :| 0 <= k < j - 1 && !IsVarChar(t[1..][k]);
            assert t[k + 1] == t[1..][k];
          }
        }
      }
    }
  }

  /** The search finds a group exactly when the name contains one. */
  lemma VariableIffGroup(s: string)
    ensures IsVariable(s) <==> HasVarGroup(s)
  {
    VariableHasGroup(s);
    GroupIsVariable(s);
  }

  lemma {:induction false} VariableHasGroup(s: string)
    ensures IsVariable(s) ==> HasVarGroup(s)
  {
    if |s| > 0 && IsVariable(s) {
      if s[0] == '{' && GroupAt(s[1..]) {
        GroupAtIff(s[1..]);
        var j :| 0 <= j < |s[1..]| && s[1..][j] == '}' && forall k :: 0 <= k < j ==> IsVarChar(s[1..][k]);
        assert s[j + 1] == '}';
        assert forall k :: 0 < k < j + 1 ==> IsVarChar(s[k]) by {
          forall k | 0 < k < j + 1 ensures IsVarChar(s[k]) { assert s[k] == s[1..][k - 1]; }
        }
      } else {
        VariableHasGroup(s[1..]);
        var i, j :| 0 <= i < j < |s[1..]| && s[1..][i] == '{' && s[1..][j] == '}' &&
          forall k :: i < k < j ==> IsVarChar(s[1..][k]);
        assert s[i + 1] == '{' && s[j + 1] == '}';
        assert forall k :: i + 1 < k < j + 1 ==> IsVarChar(s[k]) by {
          forall k | i + 1 < k < j + 1 ensures IsVarChar(s[k]) { assert s[k] == s[1..][k - 1]; }
        }
      }
    }
  }

  lemma {:induction false} GroupIsVariable(s: string)
    ensures HasVarGroup(s) ==> IsVariable(s)
  {
    if HasVarGroup(s) {
      var i, j :| 0 <= i < j < |s| && s[i] == '{' && s[j] == '}' && forall k :: i < k < j ==> IsVarChar(s[k]);
      if i == 0 {
        GroupAtIff(s[1..]);
        assert s[1..][j - 1] == '}';
        assert forall k :: 0 <= k < j - 1 ==> IsVarChar(s[1..][k]) by {
          forall k | 0 <= k < j - 1 ensures IsVarChar(s[1..][k]) { assert s[1..][k] == s[k + 1]; }
        }
      } else {
        assert s[1..][i - 1] == '{' && s[1..][j - 1] == '}';
        assert forall k :: i - 1 < k < j - 1 ==> IsVarChar(s[1..][k]) by {
          forall k | i - 1 < k < j - 1 ensures IsVarChar(s[1..][k]) { assert s[1..][k] == s[k + 1]; }
        }
        GroupIsVariable(s[1..]);
      }
    }
  }

  /** A variable segment has at least its braces. */
  lemma {:induction false} VariableLength(s: string)
    ensures IsVariable(s) ==> |s| >= 2
  {
    if |s| > 0 && IsVariable(s) && !(s[0] == '{' && GroupAt(s[1..])) {
      VariableLength(s[1..]);
    }
  }

  /**
   * The pattern on sample route segments: "{id}", "{}" and "v{id}" are
   * variable segments; "id", "{a.b}" (a dot is outside the class) and "}{"
   * are not.
   */
  lemma VariableSegments()
    ensures IsVariable("{id}") && IsVariable("{}") && IsVariable("v{id}")
    ensures !IsVariable("id") && !IsVariable("{a.b}") && !IsVariable("}{")
  {
    assert GroupAt("}");
    assert "{id}"[1..] == "id}" && "id}"[1..] == "d}" && "d}"[1..] == "}";
    assert "{}"[1..] == "}";
    assert "v{id}"[1..] == "{id}";
    assert !IsVariable("d") by { assert "d"[1..] == ""; }
    assert !IsVariable("id") by { assert "id"[1..] == "d"; }
    assert !IsVariable("b}") by { assert "b}"[1..] == "}"; }
    assert !IsVariable(".b}") by { assert ".b}"[1..] == "b}"; }
    assert !IsVariable("a.b}") by { assert "a.b}"[1..] == ".b}"; }
    assert !GroupAt("a.b}") by { assert "a.b}"[1..] == ".b}"; }
    assert "{a.b}"[1..] == "a.b}";
    assert !IsVariable("{") by { assert "{"[1..] == ""; }
    assert !IsVariable("}{") by { assert "}{"[1..] == "{"; }
  }

  /** A fresh node takes any non-empty list of names. */
  lemma {:induction false} AddToFresh<V>(key: string, name: seq<string>, value: V)
    requires |name| >= 1
    ensures Add(Fresh(key, value), name, value).1 == Ok(())
    decreases |name|
  {
    if |name| > 1 {
      AddToFresh(name[0], name[1..], value);
    }
  }

  /** `add` changes nothing when it throws. */
  lemma {:induction false} AddAtomic<V>(t: Node<V>, name: seq<string>, value: V)
    ensures Add(t, name, value).1.Err? ==> Add(t, name, value).0 == t
    decreases |name|, t
  {
    if |name| != 1 {
      var key := Head(name);
      if key in t.children {
        AddAtomic(t.children[key], Rest(name), value);
        if Add(t.children[key], Rest(name), value).1.Err? {
          assert t.children[key := t.children[key]] == t.children;
        }
      } else if |name| > 0 && !(IsVariable(key) && t.varname != "" && t.varname != key) {
        AddToFresh(key, name[1..], value);
      }
    }
  }

  /** If `add(path, v)` returns normally, `resolve(path)` is `v`. */
  lemma {:induction false} AddThenResolve<V>(t: Node<V>, path: seq<string>, value: V)
    requires Add(t, path, value).1.Ok?
    ensures Resolve(Add(t, path, value).0, path) == Some(value)
    decreases |path|, t
  {
    var t' := Add(t, path, value).0;
    if |path| != 1 {
      var key := Head(path);
      if key in t.children {
        AddThenResolve(t.children[key], Rest(path), value);
      } else {
        AddThenResolve(Fresh(key, value), path[1..], value);
      }
      assert key in t'.children;
    }
  }

  /** After a normal `add` the whole path is made of exact children. */
  lemma {:induction false} AddMakesExact<V>(t: Node<V>, path: seq<string>, value: V)
    requires Add(t, path, value).1.Ok?
    ensures Exact(Add(t, path, value).0, path)
    decreases |path|, t
  {
    if |path| != 1 {
      var key := Head(path);
      if key in t.children {
        AddMakesExact(t.children[key], Rest(path), value);
      } else {
        AddMakesExact(Fresh(key, value), path[1..], value);
      }
    }
  }

  /** After a normal `add`, every non-empty prefix of the path names a node. */
  lemma {:induction false} AddCreatesPath<V>(t: Node<V>, path: seq<string>, value: V, n: nat)
    requires Add(t, path, value).1.Ok? && 1 <= n <= |path|
    ensures NodeAt(Add(t, path, value).0, path[..n]).Some?
    decreases |path|, t
  {
    var t' := Add(t, path, value).0;
    assert path[..n][0] == path[0];
    if |path| > 1 && n > 1 {
      var key := Head(path);
      assert path[..n][1..] == path[1..][..n - 1];
      if key in t.children {
        AddCreatesPath(t.children[key], path[1..], value, n - 1);
      } else {
        AddCreatesPath(Fresh(key, value), path[1..], value, n - 1);
      }
    }
  }

  /** Adding over an existing node throws: a path already added, or a prefix of one. */
  lemma {:induction false} AddExistingThrows<V>(t: Node<V>, path: seq<string>, value: V)
    requires |path| >= 1 && NodeAt(t, path).Some?
    ensures Add(t, path, value).1 == Err(AlreadyExists(path[|path| - 1]))
    decreases |path|
  {
    if |path| > 1 {
      AddExistingThrows(t.children[path[0]], path[1..], value);
      assert path[1..][|path[1..]| - 1] == path[|path| - 1];
    }
  }

  /** Adding a proper prefix of a path added before throws "already exists". */
  lemma AddPrefixThrows<V>(t: Node<V>, path: seq<string>, value: V, n: nat, other: V)
    requires Add(t, path, value).1.Ok? && 1 <= n <= |path|
    ensures Add(Add(t, path, value).0, path[..n], other).1 == Err(AlreadyExists(path[n - 1]))
  {
    var t' := Add(t, path, value).0;
    var prefix := path[..n];
    AddCreatesPath(t, path, value, n);
    AddExistingThrows(t', prefix, other);
    assert prefix[|prefix| - 1] == path[n - 1];
  }

  /**
   * A variable leaf under a node that already has a variable name throws: the
   * name is compared with its own first character, which never equals a
   * variable name.
   */
  lemma LeafVariableThrows<V>(t: Node<V>, name: string, value: V)
    requires t.varname != "" && IsVariable(t.varname) && IsVariable(name)
    ensures Add(t, [name], value).1.Err?
    ensures name !in t.children ==> Add(t, [name], value).1 == Err(OneVariable(t.varname, [name[0]]))
  {
    if name !in t.children {
      assert t.varname != [name[0]] by {
        VariableLength(t.varname);
      }
    }
  }

  /** A second, different variable segment below one node throws. */
  lemma IntermediateVariableThrows<V>(t: Node<V>, path: seq<string>, value: V)
    requires |path| >= 2 && path[0] !in t.children
    requires t.varname != "" && IsVariable(path[0]) && path[0] != t.varname
    ensures Add(t, path, value) == (t, Err(OneVariable(t.varname, path[0])))
  {
  }

  /** Every variable child of every node is the node's variable child. */
  ghost predicate OneVariableChild<V>(t: Node<V>)
    decreases t
  {
    && (forall k :: k in t.children && t.children[k].variable ==> k == t.varname)
    && (forall k :: k in t.children ==> t.children[k].variable == IsVariable(k))
    && (forall k :: k in t.children ==> t.children[k].name == k && OneVariableChild(t.children[k]))
  }

  lemma FreshOneVariable<V>(key: string, value: V)
    ensures OneVariableChild(Fresh(key, value))
  {
  }

  /** `add` keeps at most one variable child per node. */
  lemma {:induction false} AddKeepsOneVariable<V>(t: Node<V>, name: seq<string>, value: V)
    requires OneVariableChild(t)
    ensures OneVariableChild(Add(t, name, value).0)
    decreases |name|, t
  {
    var t' := Add(t, name, value).0;
    if |name| == 1 {
      if name[0] !in t.children && !(IsVariable(name[0]) && t.varname != "" && t.varname != [name[0][0]]) {
        FreshOneVariable(name[0], value);
        OldVariablesNamed(t);
        Attach(t, t'.varname, name[0], Fresh(name[0], value));
      }
    } else {
      var key := Head(name);
      if key in t.children {
        var sub := Add(t.children[key], Rest(name), value).0;
        AddKeepsOneVariable(t.children[key], Rest(name), value);
        AddKeepsName(t.children[key], Rest(name), value);
        Attach(t, t.varname, key, sub);
      } else if |name| > 0 && !(IsVariable(key) && t.varname != "" && t.varname != key) {
        var sub := Add(Fresh(key, value), name[1..], value).0;
        FreshOneVariable(key, value);
        AddKeepsOneVariable(Fresh(key, value), name[1..], value);
        AddKeepsName(Fresh(key, value), name[1..], value);
        OldVariablesNamed(t);
        Attach(t, t'.varname, key, sub);
      }
    }
  }

  /** A variable child's name has at least two characters. */
  lemma OldVariablesNamed<V>(t: Node<V>)
    requires OneVariableChild(t)
    ensures forall k :: k in t.children && t.children[k].variable ==> |k| >= 2
  {
    forall k | k in t.children && t.children[k].variable ensures |k| >= 2 {
      VariableLength(k);
    }
  }

  /** Attaching a well-formed child keeps the node well-formed. */
  lemma Attach<V>(t: Node<V>, vn: string, key: string, sub: Node<V>)
    requires OneVariableChild(t)
    requires OneVariableChild(sub) && sub.name == key && sub.variable == IsVariable(key)
    requires sub.variable ==> key == vn
    requires forall k :: k in t.children && k != key && t.children[k].variable ==> k == vn
    ensures OneVariableChild(t.(varname := vn, children := t.children[key := sub]))
  {
  }

  lemma {:induction false} AddKeepsName<V>(t: Node<V>, name: seq<string>, value: V)
    ensures Add(t, name, value).0.name == t.name && Add(t, name, value).0.variable == t.variable
    decreases |name|, t
  {
  }

  /** Nodes that `add` creates on the way carry the value of the new leaf. */
  lemma {:induction false} IntermediateValue<V>(t: Node<V>, path: seq<string>, value: V, n: nat)
    requires Add(t, path, value).1.Ok? && 1 <= n <= |path|
    requires NodeAt(t, path[..n]).None?
    ensures NodeAt(Add(t, path, value).0, path[..n]).Some?
    ensures NodeAt(Add(t, path, value).0, path[..n]).value.value == Some(value)
    decreases |path|, t
  {
    AddCreatesPath(t, path, value, n);
    assert path[..n][0] == path[0];
    if |path| > 1 {
      var key := Head(path);
      if n > 1 {
        assert path[..n][1..] == path[1..][..n - 1];
      }
      if key in t.children {
        IntermediateValue(t.children[key], path[1..], value, n - 1);
      } else if n > 1 {
        FreshValue(key, path[1..], value, n - 1);
      }
    }
  }

  /** Below a fresh node, every node `add` makes carries the new value. */
  lemma {:induction false} FreshValue<V>(key: string, path: seq<string>, value: V, n: nat)
    requires |path| >= 1 && n <= |path|
    requires NodeAt(Add(Fresh(key, value), path, value).0, path[..n]).Some?
    ensures NodeAt(Add(Fresh(key, value), path, value).0, path[..n]).value.value == Some(value)
    decreases |path|
  {
    if n > 0 {
      assert path[..n][0] == path[0];
      if |path| > 1 {
        assert path[..n][1..] == path[1..][..n - 1];
        FreshValue(path[0], path[1..], value, n - 1);
      }
    }
  }

  /** A path whose every segment is an existing exact child. */
  predicate Exact<V>(t: Node<V>, path: seq<string>)
    decreases |path|
  {
    |path| >= 1 && path[0] in t.children && (|path| == 1 || Exact(t.children[path[0]], path[1..]))
  }

  /** Along an exact path `resolve` never consults a variable child. */
  lemma {:induction false} ResolveExact<V>(t: Node<V>, path: seq<string>)
    requires Exact(t, path)
    ensures NodeAt(t, path).Some? && Resolve(t, path) == NodeAt(t, path).value.value
    decreases |path|
  {
    if |path| > 1 {
      ResolveExact(t.children[path[0]], path[1..]);
    }
  }

  /** `add` leaves the nodes already on an exact path as they were, so earlier routes still resolve. */
  lemma {:induction false} AddKeepsExact<V>(t: Node<V>, path: seq<string>, name: seq<string>, value: V)
    requires Exact(t, path) && Add(t, name, value).1.Ok?
    ensures Exact(Add(t, name, value).0, path)
    ensures Resolve(Add(t, name, value).0, path) == Resolve(t, path)
    decreases |name|, t
  {
    var t' := Add(t, name, value).0;
    ResolveExact(t, path);
    AddKeepsValue(t, path, name, value);
    ResolveExact(t', path);
  }

  lemma {:induction false} AddKeepsValue<V>(t: Node<V>, path: seq<string>, name: seq<string>, value: V)
    requires Exact(t, path) && Add(t, name, value).1.Ok?
    ensures Exact(Add(t, name, value).0, path)
    ensures NodeAt(Add(t, name, value).0, path).Some? && NodeAt(t, path).Some?
    ensures NodeAt(Add(t, name, value).0, path).value.value == NodeAt(t, path).value.value
    decreases |name|, t
  {
    ResolveExact(t, path);
    var t' := Add(t, name, value).0;
    if |name| == 1 {
      if |path| > 1 {
        assert t'.children[path[0]] == t.children[path[0]];
      }
    } else {
      var key := Head(name);
      if key !in t.children {
        assert t'.children[path[0]] == t.children[path[0]];
      } else if path[0] == key {
        AddKeepsName(t.children[key], Rest(name), value);
        if |path| > 1 {
          AddKeepsValue(t.children[key], path[1..], Rest(name), value);
        } else {
          AddKeepsFields(t.children[key], Rest(name), value);
        }
      } else {
        assert t'.children[path[0]] == t.children[path[0]];
      }
    }
  }

  lemma {:induction false} AddKeepsFields<V>(t: Node<V>, name: seq<string>, value: V)
    ensures Add(t, name, value).0.value == t.value
    decreases |name|, t
  {
  }

  /** `resolve` does not fall back to the variable child when the exact branch fails further down. */
  lemma NoBacktrack(v: int)
    ensures var t := Node("", None, false, "{x}", map[
        "a" := Fresh("a", 1),
        "{x}" := Node("{x}", Some(2), true, "", map["b" := Fresh("b", v)])]);
      Resolve(t, ["a", "b"]) == None && Resolve(t, ["c", "b"]) == Some(v)
  {
    var t := Node("", None, false, "{x}", map[
        "a" := Fresh("a", 1),
        "{x}" := Node("{x}", Some(2), true, "", map["b" := Fresh("b", v)])]);
    assert "a" in t.children && "c" !in t.children && "{x}" in t.children;
    assert Resolve(t.children["a"], ["b"]) == None;
  }

  /** `resolve` is null when there is no exact child and no variable name. */
  lemma ResolveNothing<V>(t: Node<V>, path: seq<string>)
    requires Head(path) !in t.children && t.varname == ""
    ensures Resolve(t, path) == None
  {
  }

  /** `remove` takes the node out of its parent's children and leaves the parent's variable name. */
  lemma {:induction false} RemoveDetaches<V>(t: Node<V>, path: seq<string>)
    requires |path| >= 1 && NodeAt(t, path).Some?
    ensures NodeAt(Remove(t, path), path).None?
    ensures NodeAt(t, path[..|path| - 1]).Some? && NodeAt(Remove(t, path), path[..|path| - 1]).Some?
    ensures NodeAt(Remove(t, path), path[..|path| - 1]).value.varname == NodeAt(t, path[..|path| - 1]).value.varname
    decreases |path|
  {
    if |path| > 1 {
      RemoveDetaches(t.children[path[0]], path[1..]);
      assert path[..|path| - 1][1..] == path[1..][..|path[1..]| - 1];
      assert path[..|path| - 1][0] == path[0];
    }
  }

  /** Once the variable child of the root is removed, a path that needed it resolves to null. */
  lemma RemoveVariableChild<V>(t: Node<V>, path: seq<string>)
    requires t.varname != "" && t.varname in t.children && Head(path) !in t.children
    ensures Resolve(Remove(t, [t.varname]), path) == None
    ensures Remove(t, [t.varname]).varname == t.varname
  {
  }

  /** The root has neither siblings nor a sibling of any name. */
  lemma RootHasNoSiblings<V>(t: Node<V>, name: string)
    ensures Siblings(t, []).None? && Sibling(t, [], name).None?
  {
  }

  lemma {:induction false} NodeAtSnoc<V>(t: Node<V>, path: seq<string>, last: string)
    ensures NodeAt(t, path + [last]) ==
      (if NodeAt(t, path).Some? && last in NodeAt(t, path).value.children
       then Some(NodeAt(t, path).value.children[last]) else None)
    decreases |path|
  {
    if |path| > 0 {
      assert (path + [last])[1..] == path[1..] + [last];
      if path[0] in t.children {
        NodeAtSnoc(t.children[path[0]], path[1..], last);
      }
    } else {
      assert path + [last] == [last];
    }
  }
}

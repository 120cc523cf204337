/** Form submission of src/Nodes/Form.cpp: a GET form becomes an address with a query string
    built from its controls in document (pre-order) order, in the manner of the
    application/x-www-form-urlencoded serialiser of section 5.2 of the WHATWG URL Standard,
    except that only a space is encoded (as `+`) and nothing is percent-escaped. The
    settings page is a form whose controls set `Platform::config`. NULL strings are None. */
module Form {
  import opened Wrappers
  import opened CString
  import Platform

  datatype CheckBoxData = CheckBoxData(isChecked: bool, name: Option<string>, value: Option<string>)
  datatype SelectOption = SelectOption(text: Option<string>, value: Option<string>)
  datatype SelectData = SelectData(name: Option<string>, selected: Option<SelectOption>)

  /** The node types the form code looks at, with their data; a check box or select whose
      data pointer is NULL carries None. */
  datatype NodeKind =
    | TextField(name: Option<string>, buffer: Option<string>)
    | CheckBox(checkBox: Option<CheckBoxData>)
    | Select(select: Option<SelectData>)
    | OtherNode

  /** A node and its children, first child first. */
  datatype Node = Node(kind: NodeKind, children: seq<Node>)

  /** A name/value pair of the query string. */
  datatype Param = Param(name: string, value: Option<string>)

  /** What one node adds to the query string by itself. */
  function Contribution(kind: NodeKind): (ps: seq<Param>)
    ensures |ps| <= 1
    ensures kind.TextField? ==> (|ps| == 1 <==> kind.name.Some? && kind.buffer.Some?)
    ensures kind.CheckBox? ==>
      (|ps| == 1 <==> (kind.checkBox.Some? && kind.checkBox.value.isChecked
                       && kind.checkBox.value.name.Some? && kind.checkBox.value.value.Some?))
    ensures kind.Select? ==>
      (|ps| == 1 <==> (kind.select.Some? && kind.select.value.selected.Some? && kind.select.value.name.Some?))
    ensures kind.OtherNode? ==> ps == []
  {
    match kind
    case TextField(name, buffer) =>
      if name.Some? && buffer.Some? then [Param(name.value, buffer)] else []
    case CheckBox(data) =>
      if data.Some? && data.value.isChecked && data.value.name.Some? && data.value.value.Some?
      then [Param(data.value.name.value, data.value.value)] else []
    case Select(data) =>
      // AppendParameter itself drops a parameter without a name.
      if data.Some? && data.value.selected.Some? && data.value.name.Some?
      then [Param(data.value.name.value, data.value.selected.value.text)] else []
    case OtherNode => []
  }

  /** The parameters of a subtree: the node before its children, children in order. */
  function PreOrder(node: Node): seq<Param>
    decreases node, 1
  {
    Contribution(node.kind) + PreOrderAll(node.children)
  }

  function PreOrderAll(nodes: seq<Node>): seq<Param>
    decreases nodes, 0
  {
    if nodes == [] then [] else PreOrderAll(nodes[..|nodes| - 1]) + PreOrder(nodes[|nodes| - 1])
  }

  /** One parameter as `AppendParameter` writes it, the first one after `?`, the others
      after `&`. */
  function Fragment(p: Param, numParams: int): string
  {
    (if numParams == 0 then "?" else "&") + p.name + "=" + p.value.GetOr("")
  }

  /** The query string of a parameter list, `numParams` parameters having been written before. */
  function Encoded(ps: seq<Param>, numParams: int): string
    decreases |ps|
  {
    if ps == [] then "" else Fragment(ps[0], numParams) + Encoded(ps[1..], numParams + 1)
  }

  lemma {:induction false} EncodedAppend(a: seq<Param>, b: seq<Param>, numParams: int)
    ensures Encoded(a + b, numParams) == Encoded(a, numParams) + Encoded(b, numParams + |a|)
    decreases |a|
  {
    if a == [] {
      assert a + b == b;
    } else {
      assert (a + b)[0] == a[0];
      assert (a + b)[1..] == a[1..] + b;
      EncodedAppend(a[1..], b, numParams + 1);
    }
  }

  /** `AppendParameter`: nothing without a name; otherwise the separator, `name=`, the value
      if there is one, and one more parameter counted. */
  method AppendParameter(address: string, name: Option<string>, value: Option<string>, numParams: int)
    returns (address': string, numParams': int)
    ensures name.None? ==> address' == address && numParams' == numParams
    ensures name.Some? ==> address' == address + Fragment(Param(name.value, value), numParams)
                           && numParams' == numParams + 1
  {
    if name.None? {
      return address, numParams;
    }
    address' := address;
    if numParams == 0 {
      address' := address' + "?";
    } else {
      address' := address' + "&";
    }
    address' := address' + name.value;
    address' := address' + "=";
    if value.Some? {
      address' := address' + value.value;
    }
    numParams' := numParams + 1;
  }

  /** The `switch` of `BuildAddressParameterList`: the node's own parameter, if any. */
  method AppendOwnParameter(kind: NodeKind, address: string, numParams: int)
    returns (address': string, numParams': int)
    ensures address' == address + Encoded(Contribution(kind), numParams)
    ensures numParams' == numParams + |Contribution(kind)|
  {
    address', numParams' := address, numParams;
    match kind {
      case TextField(name, buffer) =>
        if name.Some? && buffer.Some? {
          address', numParams' := AppendParameter(address, name, buffer, numParams);
        }
      case CheckBox(data) =>
        if data.Some? && data.value.isChecked && data.value.name.Some? && data.value.value.Some? {
          address', numParams' := AppendParameter(address, data.value.name, data.value.value, numParams);
        }
      case Select(data) =>
        if data.Some? && data.value.selected.Some? {
          address', numParams' := AppendParameter(address, data.value.name, data.value.selected.value.text, numParams);
        }
      case OtherNode =>
    }
    var own := Contribution(kind);
    if own != [] {
      assert own[1..] == [];
    }
  }

  /** `BuildAddressParameterList`: the node's own parameter, then those of its children. */
  method BuildAddressParameterList(node: Node, address: string, numParams: int)
    returns (address': string, numParams': int)
    ensures address' == address + Encoded(PreOrder(node), numParams)
    ensures numParams' == numParams + |PreOrder(node)|
    decreases node
  {
    address', numParams' := AppendOwnParameter(node.kind, address, numParams);
    ghost var own := Contribution(node.kind);
    ghost var done := own;
    var i := 0;
    while i < |node.children|
      invariant 0 <= i <= |node.children|
      invariant done == own + PreOrderAll(node.children[..i])
      invariant address' == address + Encoded(done, numParams)
      invariant numParams' == numParams + |done|
    {
      var child := node.children[i];
      ghost var prefix, count := address', numParams';
      address', numParams' := BuildAddressParameterList(child, address', numParams');
      ghost var more := PreOrder(child);
      PreOrderAllSnoc(node.children, i);
      ChildAppended(address, numParams, own, PreOrderAll(node.children[..i]), done, prefix, count, more, address');
      done := done + more;
      i := i + 1;
    }
    assert node.children[..i] == node.children;
  }

  /** One child's parameters written after those already written: the address holds the
      query string of both lists together. */
  lemma ChildAppended(address: string, numParams: int, own: seq<Param>, listed: seq<Param>, done: seq<Param>,
                      prefix: string, count: int, more: seq<Param>, address': string)
    requires done == own + listed
    requires prefix == address + Encoded(done, numParams)
    requires count == numParams + |done|
    requires address' == prefix + Encoded(more, count)
    ensures done + more == own + (listed + more)
    ensures address' == address + Encoded(done + more, numParams)
  {
    EncodedAppend(done, more, numParams);
    Reassociated(address, Encoded(done, numParams), Encoded(more, count));
    Reassociated(own, listed, more);
  }

  lemma Reassociated<T>(a: seq<T>, b: seq<T>, c: seq<T>)
    ensures (a + b) + c == a + (b + c)
  {
  }

  /** The parameters of the first `i + 1` children are those of the first `i`, then those
      of child `i`. */
  lemma PreOrderAllSnoc(children: seq<Node>, i: int)
    requires 0 <= i < |children|
    ensures PreOrderAll(children[..i + 1]) == PreOrderAll(children[..i]) + PreOrder(children[i])
  {
    assert children[..i + 1][..i] == children[..i];
  }

  /** The address with what follows its first `?` cut off. */
  function BeforeQuery(address: string): (r: string)
    ensures '?' !in r
    ensures r <= address
    ensures r == address || address[|r|] == '?'
    ensures '?' !in address ==> r == address
  {
    var k := Find(address, "?");
    if k < 0 then
      assert forall j :: 0 <= j < |address| ==> address[j] != '?' by {
        forall j | 0 <= j < |address| ensures address[j] != '?' {
          assert !OccursAt(address, "?", j);
          assert address[j..j + 1] == [address[j]];
        }
      }
      address
    else
      assert forall j :: 0 <= j < k ==> address[j] != '?' by {
        forall j | 0 <= j < k ensures address[j] != '?' {
          assert !OccursAt(address, "?", j);
          assert address[j..j + 1] == [address[j]];
        }
      }
      assert address[k..k + 1] == "?";
      address[..k]
  }

  /** Every space made a `+`, every other character kept. */
  function PlusForSpace(s: string): (r: string)
    ensures |r| == |s|
    ensures forall i :: 0 <= i < |s| ==> r[i] == if s[i] == ' ' then '+' else s[i]
  {
    seq(|s|, i requires 0 <= i < |s| => if s[i] == ' ' then '+' else s[i])
  }

  /** The address the GET branch of `SubmitForm` opens (before it is resolved against the
      page's address): the form's action, or the address bar when it has none, without its
      old query, then the form's parameters, with every space made a `+`. */
  method SubmitFormAddress(form: Node, action: Option<string>, addressBar: string) returns (address: string)
    ensures address == PlusForSpace(BeforeQuery(action.GetOr(addressBar)) + Encoded(PreOrder(form), 0))
  {
    address := addressBar;
    if action.Some? {
      address := action.value;
    }
    var questionMark := Find(address, "?");
    if questionMark >= 0 {
      address := address[..questionMark];
    }
    var numParams := 0;
    address, numParams := BuildAddressParameterList(form, address, numParams);
    address := ReplaceSpaces(address);
  }

  /** The loop at the end of `SubmitForm`'s GET branch: rewrite every space as `+`. */
  method ReplaceSpaces(s: string) returns (r: string)
    ensures r == PlusForSpace(s)
  {
    r := s;
    var p := 0;
    while p < |r|
      invariant 0 <= p <= |r| == |s|
      invariant forall i :: 0 <= i < p ==> r[i] == if s[i] == ' ' then '+' else s[i]
      invariant r[p..] == s[p..]
    {
      if r[p] == ' ' {
        r := r[p := '+'];
      }
      p := p + 1;
    }
  }

  /** The submitted address holds no space, and only its parameters can hold a `?`. */
  lemma SubmittedAddressHasNoSpace(form: Node, base: string)
    ensures ' ' !in PlusForSpace(BeforeQuery(base) + Encoded(PreOrder(form), 0))
    ensures PlusForSpace(BeforeQuery(base)) <= PlusForSpace(BeforeQuery(base) + Encoded(PreOrder(form), 0))
    ensures '?' !in PlusForSpace(BeforeQuery(base))
  {
    var cut := BeforeQuery(base);
    var whole := cut + Encoded(PreOrder(form), 0);
    var r := PlusForSpace(whole);
    assert forall i :: 0 <= i < |r| ==> r[i] != ' ';
    forall i | 0 <= i < |cut| ensures PlusForSpace(cut)[i] != '?' {
      assert cut[i] != '?';
    }
  }

  /** A form whose first parameter is `name=value` gives an address that continues with
      `?name=value` right after the cut. */
  lemma EncodedStartsWithQuestionMark(ps: seq<Param>)
    requires ps != []
    ensures Encoded(ps, 0)[0] == '?'
    ensures forall i :: 0 <= i < |Encoded(ps, 0)| ==> Encoded(ps, 0)[i] == '?' ==> i == 0 || '?' in (ps[0].name + "=" + ps[0].value.GetOr("")) || '?' in Encoded(ps[1..], 1)
  {
    var e := Encoded(ps, 0);
    var head := ps[0].name + "=" + ps[0].value.GetOr("");
    assert e == "?" + head + Encoded(ps[1..], 1);
    forall i | 0 <= i < |e| && e[i] == '?' && i != 0
      ensures '?' in head || '?' in Encoded(ps[1..], 1)
    {
      if i <= |head| {
        assert head[i - 1] == e[i];
      } else {
        assert Encoded(ps[1..], 1)[i - 1 - |head|] == e[i];
      }
    }
  }

  // ---------------------------------------------------------------- the settings form

  /** The controls of the settings page have names, text fields that set something have
      text, and the video mode select has a selected option with a value: the code reads
      all of these without a NULL test. */
  predicate SettingsReady(kind: NodeKind)
  {
    match kind
    case TextField(name, buffer) =>
      name.Some? && (name.value in {"cache_size", "cache_path"} ==> buffer.Some?)
    case CheckBox(data) => data.Some? && data.value.name.Some?
    case Select(data) =>
      data.Some? && data.value.name.Some?
      && (data.value.name.value == "video_mode" ==> data.value.selected.Some? && data.value.selected.value.value.Some?)
    case OtherNode => true
  }

  predicate SettingsTreeReady(node: Node)
    decreases node
  {
    SettingsReady(node.kind) && forall i :: 0 <= i < |node.children| ==> SettingsTreeReady(node.children[i])
  }

  /** One control of the settings page applied to the configuration. */
  function Applied(c: Platform.Config, kind: NodeKind): Platform.Config
    requires SettingsReady(kind)
  {
    match kind
    case TextField(name, buffer) =>
      if name.value == "cache_size" then c.(cacheSize := Atoi(buffer.value))
      else if name.value == "cache_path" then c.(cachePath := buffer.value)
      else c
    case CheckBox(data) =>
      if data.value.name.value == "cache_enabled" then c.(enableCache := data.value.isChecked) else c
    case Select(data) =>
      if data.value.name.value == "video_mode" then c.(vidMode := Atoi(data.value.selected.value.value.value)) else c
    case OtherNode => c
  }

  /** The controls of a subtree in pre-order. */
  function Controls(node: Node): seq<NodeKind>
    decreases node, 1
  {
    [node.kind] + ControlsAll(node.children)
  }

  function ControlsAll(nodes: seq<Node>): seq<NodeKind>
    decreases nodes, 0
  {
    if nodes == [] then [] else ControlsAll(nodes[..|nodes| - 1]) + Controls(nodes[|nodes| - 1])
  }

  predicate AllReady(kinds: seq<NodeKind>)
  {
    forall i :: 0 <= i < |kinds| ==> SettingsReady(kinds[i])
  }

  /** A list of controls applied in order. */
  function AppliedAll(c: Platform.Config, kinds: seq<NodeKind>): Platform.Config
    requires AllReady(kinds)
    decreases |kinds|
  {
    if kinds == [] then c else Applied(AppliedAll(c, kinds[..|kinds| - 1]), kinds[|kinds| - 1])
  }

  lemma {:induction false} AppliedAllAppend(c: Platform.Config, a: seq<NodeKind>, b: seq<NodeKind>)
    requires AllReady(a) && AllReady(b)
    ensures AllReady(a + b)
    ensures AppliedAll(c, a + b) == AppliedAll(AppliedAll(c, a), b)
    decreases |b|
  {
    if b == [] {
      assert a + b == a;
    } else {
      var b' := b[..|b| - 1];
      assert (a + b)[..|a + b| - 1] == a + b';
      AppliedAllAppend(c, a, b');
    }
  }

  lemma {:induction false} ControlsReady(node: Node)
    requires SettingsTreeReady(node)
    ensures AllReady(Controls(node))
    decreases node, 1
  {
    ControlsAllReady(node.children);
  }

  lemma {:induction false} ControlsAllReady(nodes: seq<Node>)
    requires forall i :: 0 <= i < |nodes| ==> SettingsTreeReady(nodes[i])
    ensures AllReady(ControlsAll(nodes))
    decreases nodes, 0
  {
    if nodes != [] {
      ControlsAllReady(nodes[..|nodes| - 1]);
      ControlsReady(nodes[|nodes| - 1]);
    }
  }

  /** The `switch` of `ProcessSettingsForm`: the setting this one control stands for. */
  method ApplyControl(kind: NodeKind, platform: Platform.PlatformConfig)
    requires SettingsReady(kind)
    modifies platform
    ensures platform.State() == Applied(old(platform.State()), kind)
  {
    match kind {
      case TextField(name, buffer) =>
        if name.value == "cache_size" {
          platform.cacheSize := Atoi(buffer.value);
        } else if name.value == "cache_path" {
          platform.cachePath := buffer.value;
        }
      case CheckBox(data) =>
        if data.value.name.value == "cache_enabled" {
          platform.enableCache := data.value.isChecked;
        }
      case Select(data) =>
        if data.value.name.value == "video_mode" {
          platform.vidMode := Atoi(data.value.selected.value.value.value);
        }
      case OtherNode =>
    }
  }

  /** `ProcessSettingsForm`: every control of the tree, node before children, sets the
      setting its name stands for: `cache_size`, `cache_path`, `cache_enabled`,
      `video_mode`. */
  method ProcessSettingsForm(node: Node, platform: Platform.PlatformConfig)
    requires SettingsTreeReady(node)
    modifies platform
    ensures AllReady(Controls(node))
    ensures platform.State() == AppliedAll(old(platform.State()), Controls(node))
    decreases node
  {
    ControlsReady(node);
    ghost var start := platform.State();
    ApplyControl(node.kind, platform);
    assert [node.kind][..0] == [];
    assert [node.kind] + ControlsAll(node.children[..0]) == [node.kind];
    var i := 0;
    while i < |node.children|
      invariant 0 <= i <= |node.children|
      invariant AllReady([node.kind] + ControlsAll(node.children[..i]))
      invariant platform.State() == AppliedAll(start, [node.kind] + ControlsAll(node.children[..i]))
    {
      var child := node.children[i];
      ControlStep(start, node.kind, node.children, i);
      ProcessSettingsForm(child, platform);
      i := i + 1;
    }
    assert node.children[..i] == node.children;
  }

  lemma ControlStep(c: Platform.Config, kind: NodeKind, children: seq<Node>, i: int)
    requires 0 <= i < |children| && SettingsTreeReady(children[i])
    requires AllReady([kind] + ControlsAll(children[..i]))
    ensures AllReady(Controls(children[i]))
    ensures AllReady([kind] + ControlsAll(children[..i + 1]))
    ensures AppliedAll(c, [kind] + ControlsAll(children[..i + 1]))
            == AppliedAll(AppliedAll(c, [kind] + ControlsAll(children[..i])), Controls(children[i]))
  {
    var soFar := [kind] + ControlsAll(children[..i]);
    assert children[..i + 1][..i] == children[..i];
    assert [kind] + ControlsAll(children[..i + 1]) == soFar + Controls(children[i]);
    ControlsReady(children[i]);
    AppliedAllAppend(c, soFar, Controls(children[i]));
  }

  /** A control whose name is not one of the four settings changes nothing. */
  predicate IsSetting(kind: NodeKind)
  {
    match kind
    case TextField(name, _) => name.Some? && name.value in {"cache_size", "cache_path"}
    case CheckBox(data) => data.Some? && data.value.name.Some? && data.value.name.value == "cache_enabled"
    case Select(data) => data.Some? && data.value.name.Some? && data.value.name.value == "video_mode"
    case OtherNode => false
  }

  lemma {:induction false} OtherControlsChangeNothing(c: Platform.Config, kinds: seq<NodeKind>)
    requires AllReady(kinds)
    requires forall i :: 0 <= i < |kinds| ==> !IsSetting(kinds[i])
    ensures AppliedAll(c, kinds) == c
    decreases |kinds|
  {
    if kinds != [] {
      OtherControlsChangeNothing(c, kinds[..|kinds| - 1]);
    }
  }

  /** The cache size comes from the last `cache_size` field of the form: no later control
      touches it. */
  lemma {:induction false} LastCacheSizeWins(c: Platform.Config, kinds: seq<NodeKind>, k: int)
    requires AllReady(kinds) && 0 <= k < |kinds|
    requires kinds[k].TextField? && kinds[k].name == Some("cache_size")
    requires forall j :: k < j < |kinds| ==> !(kinds[j].TextField? && kinds[j].name == Some("cache_size"))
    ensures AppliedAll(c, kinds).cacheSize == Atoi(kinds[k].buffer.value)
    decreases |kinds|
  {
    var n := |kinds|;
    var init := kinds[..n - 1];
    assert AllReady(init) by {
      forall j | 0 <= j < |init| ensures SettingsReady(init[j]) {
        assert init[j] == kinds[j];
      }
    }
    if k == n - 1 {
      AppliedSetsCacheSize(AppliedAll(c, init), kinds[k]);
    } else {
      assert init[k] == kinds[k];
      assert forall j :: k < j < |init| ==> init[j] == kinds[j];
      LastCacheSizeWins(c, init, k);
      AppliedKeepsCacheSize(AppliedAll(c, init), kinds[n - 1]);
    }
  }

  /** A `cache_size` field sets the cache size to its number. */
  lemma AppliedSetsCacheSize(c: Platform.Config, kind: NodeKind)
    requires SettingsReady(kind)
    requires kind.TextField? && kind.name == Some("cache_size")
    ensures Applied(c, kind).cacheSize == Atoi(kind.buffer.value)
  {
  }

  /** Only a `cache_size` field sets the cache size. */
  lemma AppliedKeepsCacheSize(c: Platform.Config, kind: NodeKind)
    requires SettingsReady(kind)
    requires !(kind.TextField? && kind.name == Some("cache_size"))
    ensures Applied(c, kind).cacheSize == c.cacheSize
  {
  }
}

/** Request paths, their routing, and the lookup of single objects by key. */
module Lookup {
  import opened Objects
  import opened Views

  // ----- splitPath

  predicate SlashFree(s: string) { '/' !in s }

  function TrimLeft(s: string): string { if s != "" && s[0] == '/' then TrimLeft(s[1..]) else s }

  function TrimRight(s: string): string {
    if s != "" && s[|s| - 1] == '/' then TrimRight(s[..|s| - 1]) else s
  }

  /** strings.Trim(path, "/") */
  function Trim(s: string): string { TrimRight(TrimLeft(s)) }

  /** strings.Split(s, "/") */
  function Split(s: string): (parts: seq<string>)
    ensures parts != []
  {
    if s == "" then [""]
    else if s[0] == '/' then [""] + Split(s[1..])
    else var rest := Split(s[1..]); [[s[0]] + rest[0]] + rest[1..]
  }

  function SplitPath(path: string): seq<string> {
    if Trim(path) == "" then [] else Split(Trim(path))
  }

  function Join(parts: seq<string>): string {
    if parts == [] then "" else if |parts| == 1 then parts[0] else parts[0] + "/" + Join(parts[1..])
  }

  lemma {:induction false} SplitJoins(s: string)
    ensures Join(Split(s)) == s
    ensures forall i :: 0 <= i < |Split(s)| ==> SlashFree(Split(s)[i])
  {
    if s != "" {
      SplitJoins(s[1..]);
      var rest := Split(s[1..]);
      if s[0] == '/' {
        assert ([""] + rest)[1..] == rest;
      } else {
        var parts := [[s[0]] + rest[0]] + rest[1..];
        assert parts[1..] == rest[1..];
        if |rest| > 1 {
          assert [s[0]] + rest[0] + "/" + Join(rest[1..]) == [s[0]] + (rest[0] + "/" + Join(rest[1..]));
        }
      }
    }
  }

  lemma {:induction false} SplitOne(p: string)
    requires SlashFree(p)
    ensures Split(p) == [p]
  {
    if p != "" {
      assert p[0] in p && [p[0]] + p[1..] == p;
      SplitOne(p[1..]);
    }
  }

  lemma {:induction false} SplitCons(p: string, s: string)
    requires SlashFree(p)
    ensures Split(p + "/" + s) == [p] + Split(s)
  {
    var t := p + "/" + s;
    if p == "" {
      assert t[1..] == s;
    } else {
      assert p[0] in p && [p[0]] + p[1..] == p;
      assert t[0] == p[0] && t[1..] == p[1..] + "/" + s;
      SplitCons(p[1..], s);
      assert ([p[1..]] + Split(s))[1..] == Split(s);
    }
  }

  lemma {:induction false} JoinSplits(parts: seq<string>)
    requires parts != [] && forall i :: 0 <= i < |parts| ==> SlashFree(parts[i])
    ensures Split(Join(parts)) == parts
  {
    if |parts| == 1 {
      SplitOne(parts[0]);
    } else {
      JoinSplits(parts[1..]);
      SplitCons(parts[0], Join(parts[1..]));
    }
  }

  /** The segments of a path are slash-free and join back to the path without its outer slashes. */
  lemma SplitPathJoins(path: string)
    ensures Join(SplitPath(path)) == Trim(path)
    ensures forall i :: 0 <= i < |SplitPath(path)| ==> SlashFree(SplitPath(path)[i])
  {
    SplitJoins(Trim(path));
  }

  lemma Ends(p: string, rest: string)
    requires p != "" && rest != ""
    ensures var s := p + "/" + rest; s != "" && s[0] == p[0] && s[|s| - 1] == rest[|rest| - 1]
  {
  }

  lemma {:induction false} JoinEnds(parts: seq<string>)
    requires parts != [] && forall i :: 0 <= i < |parts| ==> SlashFree(parts[i]) && parts[i] != ""
    ensures var s := Join(parts); s != "" && s[0] != '/' && s[|s| - 1] != '/'
  {
    var p := parts[0];
    assert p[0] in p && p[|p| - 1] in p;
    if |parts| > 1 {
      JoinEnds(parts[1..]);
      Ends(p, Join(parts[1..]));
    }
  }

  lemma TrimsOuter(s: string)
    requires s != "" && s[0] != '/' && s[|s| - 1] != '/'
    ensures Trim(s) == s && Trim("/" + s) == s
  {
    assert ("/" + s)[1..] == s;
  }

  /** Segments survive the round trip through a path, with or without outer slashes. */
  lemma SplitPathOfJoin(parts: seq<string>)
    requires parts != [] && forall i :: 0 <= i < |parts| ==> SlashFree(parts[i]) && parts[i] != ""
    ensures SplitPath(Join(parts)) == parts && SplitPath("/" + Join(parts)) == parts
  {
    JoinSplits(parts);
    JoinEnds(parts);
    TrimsOuter(Join(parts));
  }

  // ----- Routing in Do

  /** What a request asks for; `selector` is the field selector of a list or watch. */
  datatype Request =
    | WatchAll(rt: ResourceType, selector: string)
    | List(rt: ResourceType, selector: string)
    | ListNamespace(rt: ResourceType, namespace: string)
    | Get(rt: ResourceType, name: string, namespace: string)
    | BadRequest

  function Lower(c: char): char { if 'A' <= c <= 'Z' then c - 'A' + 'a' else c }

  predicate EqualFold(s: string, t: string) {
    |s| == |t| && forall i :: 0 <= i < |s| ==> Lower(s[i]) == Lower(t[i])
  }

  /** The request of a path, a field selector and the watch parameter. */
  function Route(path: string, selector: string, watchParam: bool): Request {
    RouteParts(SplitPath(path), selector, watchParam)
  }

  function RouteParts(parts: seq<string>, selector: string, watchParam: bool): Request {
    if |parts| < 1 then BadRequest
    else if parts[0] == "watch" || watchParam then
      var rest := if parts[0] == "watch" then parts[1..] else parts;
      if |rest| < 1 then BadRequest
      else match StringToResourceType(rest[0]) case Some(rt) => WatchAll(rt, selector) case None => BadRequest
    else if |parts| == 1 then
      match StringToResourceType(parts[0]) case Some(rt) => List(rt, selector) case None => BadRequest
    else if |parts| == 2 then
      match StringToResourceType(parts[0]) case Some(rt) => Get(rt, parts[1], "") case None => BadRequest
    else if |parts| == 3 then
      if parts[0] != "namespaces" then BadRequest
      else match StringToResourceType(parts[2]) case Some(rt) => ListNamespace(rt, parts[1]) case None => BadRequest
    else if |parts| == 4 || |parts| == 5 then
      if |parts| == 5 && !EqualFold(parts[4], "status") then BadRequest
      else if parts[0] != "namespaces" then BadRequest
      else match StringToResourceType(parts[2]) case Some(rt) => Get(rt, parts[3], parts[1]) case None => BadRequest
    else BadRequest
  }

  function ResourceName(rt: ResourceType): string {
    match rt
    case Pods => "pods"
    case PersistentVolumes => "persistentvolumes"
    case Nodes => "nodes"
    case Services => "services"
    case PersistentVolumeClaims => "persistentvolumeclaims"
    case StorageClasses => "storageclasses"
  }

  predicate Segment(s: string) { s != "" && SlashFree(s) }

  function PathParts(r: Request): seq<string>
    requires !r.BadRequest?
  {
    match r
    case WatchAll(rt, _) => ["watch", ResourceName(rt)]
    case List(rt, _) => [ResourceName(rt)]
    case ListNamespace(rt, ns) => ["namespaces", ns, ResourceName(rt)]
    case Get(rt, name, ns) =>
      if ns == "" then [ResourceName(rt), name] else ["namespaces", ns, ResourceName(rt), name]
  }

  predicate WellFormed(r: Request) {
    match r
    case BadRequest => false
    case ListNamespace(_, ns) => Segment(ns)
    case Get(_, name, ns) => Segment(name) && (ns == "" || Segment(ns))
    case _ => true
  }

  lemma ResourceNameRoundTrip(rt: ResourceType)
    ensures StringToResourceType(ResourceName(rt)) == Some(rt)
    ensures Segment(ResourceName(rt)) && ResourceName(rt) != "watch"
  {
  }

  function SelectorOf(r: Request): string { if r.WatchAll? || r.List? then r.selector else "" }

  lemma PartsRoundTrip(r: Request)
    requires WellFormed(r)
    ensures RouteParts(PathParts(r), SelectorOf(r), false) == r
  {
    ResourceNameRoundTrip(r.rt);
  }

  lemma PartsAreSegments(r: Request)
    requires WellFormed(r)
    ensures PathParts(r) != [] && forall i :: 0 <= i < |PathParts(r)| ==> Segment(PathParts(r)[i])
  {
    ResourceNameRoundTrip(r.rt);
  }

  /** Every well-formed request has a path that routes to it. */
  lemma RouteRoundTrip(r: Request)
    requires WellFormed(r)
    ensures Route("/" + Join(PathParts(r)), SelectorOf(r), false) == r
  {
    PartsAreSegments(r);
    SplitPathOfJoin(PathParts(r));
    PartsRoundTrip(r);
  }

  /** The six resource names and no other. */
  lemma KnownResources(s: string)
    ensures StringToResourceType(s) ==
            if s == "pods" then Some(Pods)
            else if s == "nodes" then Some(Nodes)
            else if s == "services" then Some(Services)
            else if s == "persistentvolumes" then Some(PersistentVolumes)
            else if s == "persistentvolumeclaims" then Some(PersistentVolumeClaims)
            else if s == "storageclasses" then Some(StorageClasses) else None
  {
  }

  /** The segments and the watch parameter ask for the request, which is not a bad one. */
  predicate Asks(parts: seq<string>, selector: string, watchParam: bool, r: Request)
    requires !r.BadRequest?
  {
    var name := ResourceName(r.rt);
    match r
    case WatchAll(_, sel) =>
      sel == selector && |parts| >= 1
      && if parts[0] == "watch" then |parts| >= 2 && parts[1] == name else watchParam && parts[0] == name
    case List(_, sel) => sel == selector && !watchParam && parts == [name]
    case ListNamespace(_, ns) => !watchParam && parts == ["namespaces", ns, name]
    case Get(_, obj, ns) =>
      && !watchParam
      && ((ns == "" && parts == [name, obj])
          || parts == ["namespaces", ns, name, obj]
          || (|parts| == 5 && parts[..4] == ["namespaces", ns, name, obj] && EqualFold(parts[4], "status")))
  }

  /** A path routes to a request exactly when its segments ask for it; every other path is refused. */
  lemma RouteIff(path: string, selector: string, watchParam: bool, r: Request)
    requires !r.BadRequest?
    ensures Route(path, selector, watchParam) == r <==> Asks(SplitPath(path), selector, watchParam, r)
  {
    RoutePartsIff(SplitPath(path), selector, watchParam, r);
  }

  lemma RoutePartsIff(parts: seq<string>, selector: string, watchParam: bool, r: Request)
    requires !r.BadRequest?
    ensures RouteParts(parts, selector, watchParam) == r <==> Asks(parts, selector, watchParam, r)
  {
    ResourceNameRoundTrip(r.rt);
    if |parts| >= 1 {
      KnownName(parts[0], r.rt);
    }
    if |parts| >= 2 {
      KnownName(parts[1], r.rt);
    }
    if |parts| >= 3 {
      KnownName(parts[2], r.rt);
    }
  }

  lemma KnownName(s: string, rt: ResourceType)
    ensures StringToResourceType(s) == Some(rt) <==> s == ResourceName(rt)
  {
    KnownResources(s);
    ResourceNameRoundTrip(rt);
  }

  lemma RouteOfParts(parts: seq<string>, selector: string, watchParam: bool)
    requires parts != [] && forall i :: 0 <= i < |parts| ==> Segment(parts[i])
    ensures Route("/" + Join(parts), selector, watchParam) == RouteParts(parts, selector, watchParam)
  {
    SplitPathOfJoin(parts);
  }

  /** The watch parameter turns the list of a resource into a watch of it. */
  lemma WatchParamRoute(rt: ResourceType, selector: string)
    ensures Route("/" + ResourceName(rt), selector, true) == WatchAll(rt, selector)
    ensures Route("/" + ResourceName(rt), selector, false) == List(rt, selector)
  {
    ResourceNameRoundTrip(rt);
    var parts := [ResourceName(rt)];
    assert Join(parts) == ResourceName(rt);
    RouteOfParts(parts, selector, true);
    RouteOfParts(parts, selector, false);
  }

  /** A namespaced get with a fifth segment is the get of its four segments if that segment is "status", in any case,
      and is refused otherwise. */
  lemma StatusRoute(rt: ResourceType, namespace: string, name: string, last: string, selector: string)
    requires Segment(namespace) && Segment(name) && Segment(last)
    ensures Route("/" + Join(["namespaces", namespace, ResourceName(rt), name, last]), selector, false)
            == if EqualFold(last, "status") then Get(rt, name, namespace) else BadRequest
    ensures EqualFold("status", "status") && EqualFold("Status", "status") && EqualFold("STATUS", "status")
  {
    ResourceNameRoundTrip(rt);
    RouteOfParts(["namespaces", namespace, ResourceName(rt), name, last], selector, false);
  }

  // ----- createGetReadCloser

  /** The objects of a cache that satisfy a predicate. */
  ghost predicate Holds(c: Cache, o: Object) { exists k :: k in c && c[k] == o }

  /** Look one object up by the key its namespace and name make; a namespace must match the object's own, and nodes
      have none to match. */
  function GetObject(caches: map<ResourceType, Cache>, rt: ResourceType, name: string, namespace: string): Option<Object> {
    var key := (if namespace != "" then namespace + "/" else "") + name;
    if rt !in caches || key !in caches[rt] then None
    else
      var o := caches[rt][key];
      var ns := if rt == Nodes then "" else o.Namespace();
      if namespace != "" && ns != namespace then None else Some(o)
  }

  predicate SameName(o: Object, p: Object) { o.Namespace() == p.Namespace() && o.Name() == p.Name() }

  /** Keyed get agrees with scan: a namespaced get finds an object exactly when the cache holds one of that namespace
      and name; there is at most one; and it is in the namespace-filtered list.  Whatever the names are. */
  lemma NamespacedGetIsScan(caches: map<ResourceType, Cache>, rt: ResourceType, name: string, namespace: string, o: Object)
    requires rt in caches && KeyInv(caches[rt]) && namespace != "" && rt != Nodes
    ensures GetObject(caches, rt, name, namespace) == Some(o)
            <==> Holds(caches[rt], o) && o.Namespace() == namespace && o.Name() == name
    ensures forall p :: Holds(caches[rt], o) && Holds(caches[rt], p) && SameName(o, p) ==> o == p
  {
    var c, key := caches[rt], namespace + "/" + name;
    if Holds(c, o) && o.Namespace() == namespace && o.Name() == name {
      var k :| k in c && c[k] == o;
      assert k == key;
    }
    if GetObject(caches, rt, name, namespace) == Some(o) {
      assert c[key] == o && Key(o) == namespace + "/" + o.Name();
      assert Key(o)[|namespace| + 1..] == o.Name() && key[|namespace| + 1..] == name;
    }
  }

  /** The selector "Namespace=s". */
  const BY_NAMESPACE: Match := (s: string, o: Object) => o.Namespace() == s

  /** A namespaced get finds exactly the object of that name in the namespace-filtered list. */
  lemma NamespacedGetIsInList(caches: map<ResourceType, Cache>, rt: ResourceType, name: string, namespace: string,
                              listing: seq<Object>, o: Object)
    requires rt in caches && KeyInv(caches[rt]) && namespace != "" && rt != Nodes
    requires Lists(BY_NAMESPACE, caches[rt], namespace, listing)
    ensures GetObject(caches, rt, name, namespace) == Some(o) <==> o in listing && o.Name() == name
  {
    NamespacedGetIsScan(caches, rt, name, namespace, o);
    assert o in listing <==> exists k :: k in caches[rt] && caches[rt][k] == o && BY_NAMESPACE(namespace, o);
  }

  /** A get answers as a scan of the cache for that namespace and name. */
  ghost predicate GetIsScan(rt: ResourceType, c: Cache, name: string, namespace: string) {
    forall o :: GetObject(map[rt := c], rt, name, namespace) == Some(o)
                <==> Holds(c, o) && o.Namespace() == namespace && o.Name() == name
  }

  predicate NoInnerSlash(name: string) { forall i :: 1 <= i < |name| ==> name[i] != '/' }

  /** The get is by name alone and the name could not be another object's namespace and name, or it is by namespace and
      not of a node. */
  predicate Answerable(rt: ResourceType, name: string, namespace: string) {
    if namespace == "" then NoInnerSlash(name) else rt != Nodes
  }

  /** Keyed get agrees with scan on every cache if and only if the request is answerable. */
  lemma GetIsScanIff(rt: ResourceType, name: string, namespace: string)
    ensures (forall c: Cache :: KeyInv(c) ==> GetIsScan(rt, c, name, namespace)) <==> Answerable(rt, name, namespace)
  {
    if Answerable(rt, name, namespace) {
      forall c: Cache | KeyInv(c) ensures GetIsScan(rt, c, name, namespace) {
        AnswerableGet(rt, c, name, namespace);
      }
    } else if namespace == "" {
      var i :| 1 <= i < |name| && name[i] == '/';
      var c := WrongPlainGet(rt, name, i);
    } else {
      var c := WrongNodeGet(name, namespace);
    }
  }

  lemma AnswerableGet(rt: ResourceType, c: Cache, name: string, namespace: string)
    requires KeyInv(c) && Answerable(rt, name, namespace)
    ensures GetIsScan(rt, c, name, namespace)
  {
    if namespace == "" {
      PlainGet(rt, c, name);
    } else {
      forall o
        ensures GetObject(map[rt := c], rt, name, namespace) == Some(o)
                <==> Holds(c, o) && o.Namespace() == namespace && o.Name() == name
      {
        NamespacedGetIsScan(map[rt := c], rt, name, namespace, o);
      }
    }
  }

  /** A node that carries a namespace is stored and listed under it, and a get never finds it. */
  lemma WrongNodeGet(name: string, namespace: string) returns (c: Cache)
    requires namespace != ""
    ensures KeyInv(c) && !GetIsScan(Nodes, c, name, namespace)
  {
    var o := OtherObject(namespace, name, "");
    c := map[Key(o) := o];
    assert c[Key(o)] == o;
    assert Holds(c, o);
    assert GetObject(map[Nodes := c], Nodes, name, namespace) == None;
  }

  /** A name with an inner slash finds an object of a namespace. */
  lemma WrongPlainGet(rt: ResourceType, name: string, i: nat) returns (c: Cache)
    requires 1 <= i < |name| && name[i] == '/'
    ensures KeyInv(c) && !GetIsScan(rt, c, name, "")
  {
    var o := OtherObject(name[..i], name[i + 1..], "");
    assert name == name[..i] + "/" + name[i + 1..];
    assert Key(o) == name;
    c := map[name := o];
    assert "" + name == name;
    assert GetObject(map[rt := c], rt, name, "") == Some(o);
    assert o.Namespace() != "";
  }

  lemma NamespaceGivesSlash(o: Object)
    ensures o.Namespace() != "" ==> !NoInnerSlash(Key(o))
  {
    if o.Namespace() != "" {
      assert Key(o)[|o.Namespace()|] == '/';
    }
  }

  lemma PlainGet(rt: ResourceType, c: Cache, name: string)
    requires KeyInv(c) && NoInnerSlash(name)
    ensures GetIsScan(rt, c, name, "")
  {
    assert "" + name == name;
    forall o
      ensures GetObject(map[rt := c], rt, name, "") == Some(o)
              <==> Holds(c, o) && o.Namespace() == "" && o.Name() == name
    {
      NamespaceGivesSlash(o);
      if GetObject(map[rt := c], rt, name, "") == Some(o) {
        assert c[name] == o && Key(o) == name;
      }
    }
  }

  /** Names that come out of a request path hold no slash. */
  lemma RoutedNamesAreSlashFree(path: string, selector: string, watchParam: bool)
    ensures var r := Route(path, selector, watchParam); r.Get? ==> SlashFree(r.name) && SlashFree(r.namespace)
  {
    SplitPathJoins(path);
  }

  /** The get that a request path asks for agrees with the scan on every cache if and only if it is not a namespaced get
      of a node. */
  lemma RoutedGetIsScanIff(path: string, selector: string, watchParam: bool)
    ensures var r := Route(path, selector, watchParam);
            r.Get? ==>
              ((forall c: Cache :: KeyInv(c) ==> GetIsScan(r.rt, c, r.name, r.namespace))
               <==> !(r.rt == Nodes && r.namespace != ""))
  {
    var r := Route(path, selector, watchParam);
    if r.Get? {
      RoutedNamesAreSlashFree(path, selector, watchParam);
      GetIsScanIff(r.rt, r.name, r.namespace);
    }
  }
}

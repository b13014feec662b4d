/** Kubernetes objects as the simulator handles them, and their keys. */
module Objects {

  datatype Option<+A> = None | Some(value: A)

  /** pkg/api/api.go */
  datatype ResourceType = Pods | PersistentVolumes | Nodes | Services | PersistentVolumeClaims | StorageClasses

  function StringToResourceType(s: string): Option<ResourceType> {
    match s
    case "pods" => Some(Pods)
    case "persistentvolumes" => Some(PersistentVolumes)
    case "nodes" => Some(Nodes)
    case "services" => Some(Services)
    case "persistentvolumeclaims" => Some(PersistentVolumeClaims)
    case "storageclasses" => Some(StorageClasses)
    case _ => None
  }

  /** The resources that NewResourceStore keeps a cache for: all but storage classes. */
  const STORED: set<ResourceType> := {Pods, PersistentVolumes, Nodes, Services, PersistentVolumeClaims}

  datatype Condition = Condition(kind: string, status: string, reason: string)

  /** Requested quantities per resource name, in units of 10^-9. */
  datatype Container = Container(requests: map<string, int>)

  datatype Pod = Pod(
    namespace: string, name: string, uid: string, labels: map<string, string>,
    containers: seq<Container>, nodeSelector: map<string, string>,
    nodeName: string,
    phase: string, reason: string, conditions: seq<Condition>)

  datatype Object =
    | PodObject(pod: Pod)
    | OtherObject(namespace_: string, name_: string, content: string)
  {
    function Namespace(): string { match this case PodObject(p) => p.namespace case OtherObject(ns, _, _) => ns }
    function Name(): string { match this case PodObject(p) => p.name case OtherObject(_, n, _) => n }
  }

  /** cache.MetaNamespaceKeyFunc */
  function KeyOf(namespace: string, name: string): string {
    if namespace == "" then name else namespace + "/" + name
  }

  function Key(o: Object): string { KeyOf(o.Namespace(), o.Name()) }

  function PodKey(p: Pod): string { KeyOf(p.namespace, p.name) }

  type Cache = map<string, Object>

  /** Every object is stored under its own key. */
  predicate KeyInv(c: Cache) { forall k :: k in c ==> Key(c[k]) == k }
}

/** The cache object itself, one call at a time. */
module CatalogCache {
  import opened Options

  class OnceCell {
    var value: Option<nat>

    constructor ()
      ensures value.None?
    { value := None; }

    /** The builder's outcome is used only if the cell is still empty; a failure leaves it empty. */
    method GetOrTryInit(build: Option<nat>) returns (r: Option<nat>)
      modifies this
      ensures r == value == if old(value).Some? then old(value) else build
    {
      if value.None? { value := build; }
      r := value;
    }
  }

  datatype ChangeKind = Upserted | Deleted
  datatype BindingChange = BindingChange(org: string, name: string, kind: ChangeKind)

  class CatalogProviderCache {
    var inner: map<string, nat>
    var inFlight: map<string, OnceCell>

    constructor ()
      ensures Quiet() && inner == map[] && inFlight == map[]
    { inner, inFlight := map[], map[]; }

    /** No call is in progress: every in-flight cell is empty and belongs to one key. */
    ghost predicate Quiet()
      reads this, inFlight.Values
    {
      && (forall k :: k in inFlight ==> inFlight[k] in inFlight.Values && inFlight[k].value.None?)
      && (forall a, b :: a in inFlight && b in inFlight && a != b ==> inFlight[a] != inFlight[b])
    }

    /**
      A warm key is served without building.  A cold key is built once and becomes warm, and
      its in-flight entry goes; a failed build is not cached and leaves an empty cell behind.
     */
    method Get(name: string, build: Option<nat>) returns (r: Option<nat>)
      requires Quiet()
      modifies this, inFlight.Values
      ensures Quiet()
      ensures name in old(inner) ==> r == Some(old(inner)[name]) && inner == old(inner) && inFlight == old(inFlight)
      ensures name !in old(inner) ==> r == build
      ensures name !in old(inner) && build.Some? ==>
                inner == old(inner)[name := build.value] && inFlight == old(inFlight) - {name}
      ensures name !in old(inner) && build.None? ==> inner == old(inner) && inFlight - {name} == old(inFlight) - {name}
    {
      if name in inner { return Some(inner[name]); }
      if name !in inFlight {
        var fresh_ := new OnceCell();
        inFlight := inFlight[name := fresh_];
      }
      var cell := inFlight[name];
      r := cell.GetOrTryInit(build);
      if r.None? { return; }
      inner := inner[name := r.value];
      inFlight := inFlight - {name};
    }

    method Evict(name: string)
      requires Quiet()
      modifies this
      ensures Quiet() && inner == old(inner) - {name} && inFlight == old(inFlight) - {name}
    {
      inner := inner - {name};
      inFlight := inFlight - {name};
    }

    /** Every change evicts its name, whatever its kind and whichever org it came from. */
    method ApplyChange(change: BindingChange)
      requires Quiet()
      modifies this
      ensures Quiet() && inner == old(inner) - {change.name} && inFlight == old(inFlight) - {change.name}
    {
      match change.kind
      case Upserted => Evict(change.name);
      case Deleted => Evict(change.name);
    }
  }
}

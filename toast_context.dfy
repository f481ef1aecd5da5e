/** Toast notifications (frontend/src/context/ToastContext.jsx): a list of
    toasts with ids from a counter, appended on add and filtered out by id
    when a toast's timer fires. */
module ToastContext {
  import opened Wrappers

  datatype ToastKind = SuccessToast | ErrorToast | InfoToast {
    /** The `type` string the component styles by. */
    function Name(): string {
      match this
      case SuccessToast => "success"
      case ErrorToast => "error"
      case InfoToast => "info"
    }
  }

  datatype Toast = Toast(id: nat, message: string, kind: ToastKind)

  const NoProviderMessage := "useToast must be used within ToastProvider"

  predicate IdsIncreasing(ts: seq<Toast>) {
    forall i, j :: 0 <= i < j < |ts| ==> ts[i].id < ts[j].id
  }

  /** `prev.filter((t) => t.id !== id)`. */
  function Without(ts: seq<Toast>, id: nat): (r: seq<Toast>)
    ensures forall t :: t in r <==> t in ts && t.id != id
    ensures |r| <= |ts|
  {
    if ts == [] then []
    else if ts[0].id == id then Without(ts[1..], id)
    else [ts[0]] + Without(ts[1..], id)
  }

  /** Filtering works piece by piece, so the remaining toasts keep their order. */
  lemma {:induction false} WithoutSplits(a: seq<Toast>, b: seq<Toast>, id: nat)
    ensures Without(a + b, id) == Without(a, id) + Without(b, id)
  {
    if a == [] {
      assert a + b == b;
    } else {
      assert (a + b)[0] == a[0];
      assert (a + b)[1..] == a[1..] + b;
      WithoutSplits(a[1..], b, id);
    }
  }

  /** Removing an id nobody has is a no-op. */
  lemma {:induction false} WithoutAbsent(ts: seq<Toast>, id: nat)
    requires forall i :: 0 <= i < |ts| ==> ts[i].id != id
    ensures Without(ts, id) == ts
  {
    if ts != [] {
      WithoutAbsent(ts[1..], id);
    }
  }

  /** With distinct ids, removal drops exactly one toast when the id is present. */
  lemma {:induction false} WithoutDropsOne(ts: seq<Toast>, k: nat)
    requires IdsIncreasing(ts) && k < |ts|
    ensures Without(ts, ts[k].id) == ts[..k] + ts[k + 1..]
  {
    var id := ts[k].id;
    assert ts == ts[..k] + ([ts[k]] + ts[k + 1..]);
    WithoutSplits(ts[..k], [ts[k]] + ts[k + 1..], id);
    WithoutSplits([ts[k]], ts[k + 1..], id);
    WithoutAbsent(ts[..k], id);
    WithoutAbsent(ts[k + 1..], id);
    assert Without([ts[k]], id) == [] by {
      assert [ts[k]][1..] == [];
    }
  }

  /** Removal keeps the ids increasing, hence pairwise distinct. */
  lemma {:induction false} WithoutKeepsIncreasing(ts: seq<Toast>, id: nat)
    requires IdsIncreasing(ts)
    ensures IdsIncreasing(Without(ts, id))
  {
    if ts != [] {
      WithoutKeepsIncreasing(ts[1..], id);
      var rest := Without(ts[1..], id);
      forall t | t in rest ensures ts[0].id < t.id {
        assert t in ts[1..];
      }
    }
  }

  /** `useToast`: the provider's value, or the error thrown outside a provider. */
  function UseToast<C>(ctx: Option<C>): (r: Result<C, string>)
    ensures r.Failure? <==> ctx.None?
    ensures r.Success? ==> r.value == ctx.value
    ensures r.Failure? ==> r.error == NoProviderMessage
  {
    match ctx
    case Some(c) => Success(c)
    case None => Failure(NoProviderMessage)
  }

  /** One `ToastProvider`; `toastId` is the module-level counter it draws ids from. */
  class ToastProvider {
    var toastId: nat
    var toasts: seq<Toast>
    /** Every id handed out by this provider. */
    ghost var issued: set<nat>

    ghost predicate Valid()
      reads this
    {
      IdsIncreasing(toasts)
      && (forall i :: i in issued ==> i <= toastId)
      && (forall t :: t in toasts ==> t.id in issued)
    }

    /** Mounting a provider: no toasts, and the counter where earlier providers left it. */
    constructor (counter: nat)
      ensures Valid() && toastId == counter && toasts == [] && issued == {}
    {
      toastId := counter;
      toasts := [];
      issued := {};
    }

    /** `addToast`: a fresh id above every id issued before, and the toast at the end. */
    method AddToast(message: string, kind: ToastKind := InfoToast) returns (id: nat)
      requires Valid()
      modifies this
      ensures Valid()
      ensures id == old(toastId) + 1 && toastId == id
      ensures forall i :: i in old(issued) ==> i < id
      ensures issued == old(issued) + {id}
      ensures toasts == old(toasts) + [Toast(id, message, kind)]
    {
      toastId := toastId + 1;
      id := toastId;
      issued := issued + {id};
      toasts := toasts + [Toast(id, message, kind)];
    }

    /** The timer callback of `addToast`: drops the toast with this id. */
    method Dismiss(id: nat)
      requires Valid()
      modifies this`toasts
      ensures Valid()
      ensures toasts == Without(old(toasts), id)
    {
      WithoutKeepsIncreasing(toasts, id);
      toasts := Without(toasts, id);
    }

    method Success(msg: string) returns (id: nat)
      requires Valid()
      modifies this
      ensures Valid() && toastId == id == old(toastId) + 1 && issued == old(issued) + {id}
      ensures toasts == old(toasts) + [Toast(id, msg, SuccessToast)]
    {
      id := AddToast(msg, SuccessToast);
    }

    method Error(msg: string) returns (id: nat)
      requires Valid()
      modifies this
      ensures Valid() && toastId == id == old(toastId) + 1 && issued == old(issued) + {id}
      ensures toasts == old(toasts) + [Toast(id, msg, ErrorToast)]
    {
      id := AddToast(msg, ErrorToast);
    }

    method Info(msg: string) returns (id: nat)
      requires Valid()
      modifies this
      ensures Valid() && toastId == id == old(toastId) + 1 && issued == old(issued) + {id}
      ensures toasts == old(toasts) + [Toast(id, msg, InfoToast)]
    {
      id := AddToast(msg);
    }
  }
}

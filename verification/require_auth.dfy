/**
 * The route guard in front of every signed-in page: it looks only at
 * whether a token is stored.
 */
module RequireAuth {
  import opened Storage

  /** Either `<Navigate to=... replace />` or the guarded children. */
  datatype GuardResult = Redirect(to: string, replace: bool) | RenderChildren

  function Guard(local: map<string, string>): (g: GuardResult)
    ensures g == RenderChildren <==> IsSet(local, TokenKey)
    ensures g != RenderChildren ==> g == Redirect("/Login", true)
  {
    if !IsSet(local, TokenKey) then Redirect("/Login", true) else RenderChildren
  }

  /** The decision depends on the token entry alone: two stores that agree
      on it (whatever their user, role or other keys) get the same result. */
  lemma GuardDependsOnlyOnToken(a: map<string, string>, b: map<string, string>)
    requires GetItem(a, TokenKey) == GetItem(b, TokenKey)
    ensures Guard(a) == Guard(b)
  {
  }

  /** Any non-empty token is accepted as it is; it is never checked. */
  lemma AnyTokenRenders(local: map<string, string>, token: string)
    requires token != ""
    ensures Guard(local[TokenKey := token]) == RenderChildren
  {
  }
}

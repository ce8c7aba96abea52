/** What the panel sends about a user (api/model.go), and the key a user has on a node. */
module Api {
  /** The password plays no part in what is modelled. */
  datatype Subscription = Subscription(id: int, uuid: string, email: string, speedLimit: nat, ipLimit: int)

  /** The name a user is registered, limited and counted under; emailKey composes the same. */
  function BuildUserTag(tag: string, email: string): string { tag + "_" + email }

  lemma UserTagInjective(tag: string, a: string, b: string)
    ensures BuildUserTag(tag, a) == BuildUserTag(tag, b) <==> a == b
  {
    assert BuildUserTag(tag, a)[|tag + "_"|..] == a && BuildUserTag(tag, b)[|tag + "_"|..] == b;
  }
}

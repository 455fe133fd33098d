/** pns-registrar/src/nft.rs */
module Nft {
  import opened Types
  import opened Storage

  method Transfer(c: Chain, from: AccountId, to: AccountId, id: Node) returns (r: Result<()>)
    requires TokensIndexed(c.tokens, c.tokensByOwner, c.totalIssuance)
    modifies c`tokens, c`tokensByOwner
    ensures r.Ok? <==> id in old(c.tokens) && old(c.tokens)[id].owner == from
    ensures r.Ok? ==> c.tokens == old(c.tokens)[id := old(c.tokens)[id].(owner := to)]
    ensures r.Err? ==>
              c.tokens == old(c.tokens) && r.error == if id in old(c.tokens) then NoPermission else TokenNotFound
    ensures TokensIndexed(c.tokens, c.tokensByOwner, c.totalIssuance)
  {
    if id !in c.tokens {
      return Err(TokenNotFound);
    }
    var info := c.tokens[id];
    :- Ensure(info.owner == from, NoPermission);
    if from == to {
      return Ok(());
    }
    c.tokens := c.tokens[id := info.(owner := to)];
    c.tokensByOwner := c.tokensByOwner - {(from, id)} + {(to, id)};
    return Ok(());
  }

  method Mint(c: Chain, owner: AccountId, id: Node)
    requires TokensIndexed(c.tokens, c.tokensByOwner, c.totalIssuance)
    modifies c`tokens, c`tokensByOwner, c`totalIssuance
    ensures c.tokens == old(c.tokens)[id := Token(owner, 0)]
    ensures id !in old(c.tokens) ==> TokensIndexed(c.tokens, c.tokensByOwner, c.totalIssuance)
  {
    c.totalIssuance := c.totalIssuance + 1;
    c.tokens := c.tokens[id := Token(owner, 0)];
    c.tokensByOwner := c.tokensByOwner + {(owner, id)};
  }

  method Burn(c: Chain, owner: AccountId, id: Node) returns (r: Result<()>)
    requires TokensIndexed(c.tokens, c.tokensByOwner, c.totalIssuance)
    modifies c`tokens, c`tokensByOwner, c`totalIssuance
    ensures r.Ok? <==> id in old(c.tokens) && old(c.tokens)[id].owner == owner
    ensures r.Ok? ==> c.tokens == old(c.tokens) - {id}
    ensures r.Err? ==>
              c.tokens == old(c.tokens) && r.error == if id in old(c.tokens) then NoPermission else TokenNotFound
    ensures TokensIndexed(c.tokens, c.tokensByOwner, c.totalIssuance)
  {
    if id !in c.tokens {
      return Err(TokenNotFound);
    }
    :- Ensure(c.tokens[id].owner == owner, NoPermission);
    if c.totalIssuance == 0 {
      assert false; // the checked subtraction never fails: the token itself is counted
    }
    assert (c.tokens - {id}).Keys == c.tokens.Keys - {id};
    c.totalIssuance := c.totalIssuance - 1;
    c.tokens := c.tokens - {id};
    c.tokensByOwner := c.tokensByOwner - {(owner, id)};
    return Ok(());
  }
}

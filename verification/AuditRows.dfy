// What the two audit checks read and report, in terms of the rows of the table.
module AuditRows {
  import opened Prelude
  import opened EventHash
  import opened CanonicalJson
  import opened AuditLog

  lemma SeqOrderIsTotal()
    ensures TotalPreorder(SeqLe)
  {
  }

  // The chain reads the hashed rows, each once, by seq with the unnumbered first.
  lemma ChainReads(rows: seq<Row>)
    ensures Selects((r: Row) => r.eventHash != None, rows, OrderedChain(rows))
    ensures Sorted(SeqLe, OrderedChain(rows))
  {
    SeqOrderIsTotal();
    QueryMeans(SeqLe, (r: Row) => r.eventHash.Some?, rows);
  }

  // A tenant's check reads its hashed rows, each once, in the same order.
  lemma TenantChainReads(rows: seq<Row>, tenant: string)
    ensures Selects((r: Row) => r.eventHash != None && r.core.fields.tenantId == Some(tenant), rows,
                    TenantChain(rows, tenant))
    ensures Sorted(SeqLe, TenantChain(rows, tenant))
  {
    SeqOrderIsTotal();
    QueryMeans(SeqLe, (r: Row) => r.core.fields.tenantId == Some(tenant) && r.eventHash.Some?, rows);
  }

  lemma SeqOrderMeans(a: Row, b: Row)
    ensures SeqLe(a, b) <==>
            match a.core.seqNo
            case None => true
            case Some(m) => (match b.core.seqNo case None => false case Some(n) => m <= n)
  {
  }

  // The head that a new row builds on is a hashed row than which none has a greater seq.
  lemma HeadIsGreatest(rows: seq<Row>, r: Row)
    requires r in rows && r.eventHash != None
    ensures var head := ChainHead(rows);
            head.Some? && head.value in rows && head.value.eventHash != None && SeqLe(r, head.value)
  {
    var c := OrderedChain(rows);
    SeqOrderIsTotal();
    ChainReads(rows);
    SelectsMembers((q: Row) => q.eventHash != None, rows, c, r);
    SelectsMembers((q: Row) => q.eventHash != None, rows, c, c[|c| - 1]);
    LastIsGreatest(SeqLe, c, r);
  }

  // A position checks exactly if its row repeats the hash before it, 64 zeros at the start, and
  // carries the hash of its own core.
  lemma RowChecksMeans(h: Hasher, chain: seq<Row>, i: nat)
    requires i < |chain|
    ensures RowChecks(h, chain, i) <==>
            && chain[i].core.previousHash ==
               (if i == 0 then Some("0000000000000000000000000000000000000000000000000000000000000000")
                else chain[i - 1].eventHash)
            && chain[i].eventHash == Some(h(chain[i].core))
  {
  }

  // A tenant's verdict, position by position.
  lemma TenantVerdictMeaning(h: Hasher, rows: seq<Row>, k: nat)
    requires k <= |rows|
    requires forall j :: 0 <= j < k ==> rows[j].eventHash == Some(h(rows[j].core))
    requires k < |rows| ==> rows[k].eventHash != Some(h(rows[k].core))
    ensures VerifyTenantList(h, rows) ==
            if rows == [] then Verification(Empty, 0, 0, None, None)
            else if k == |rows| then Verification(Verified, k, k, None, None)
            else Verification(Failed, k, |rows|, rows[k].core.seqNo, Some(HashMismatch))
  {
    var b := FirstMismatch(h, rows, 0);
    if k < b {
      assert false;
    }
  }

  // Over the whole table: a tenant's check is empty without hashed rows of the tenant, fails
  // exactly if one of them does not hash to itself, and depends on no other row.
  lemma TenantVerdictOverRows(h: Hasher, rows: seq<Row>, tenant: string)
    ensures var v := VerifyTenantList(h, TenantChain(rows, tenant));
            && (v.status == Empty <==>
                  forall r :: r in rows && r.core.fields.tenantId == Some(tenant) ==> r.eventHash == None)
            && (v.status == Failed <==>
                  exists r :: r in rows && r.core.fields.tenantId == Some(tenant) && r.eventHash != None &&
                              r.eventHash != Some(h(r.core)))
  {
    var mine, keep := TenantChain(rows, tenant),
        (r: Row) => r.eventHash != None && r.core.fields.tenantId == Some(tenant);
    var k := FirstMismatch(h, mine, 0);
    TenantChainReads(rows, tenant);
    if mine != [] {
      SelectsMembers(keep, rows, mine, mine[0]);
    }
    if k < |mine| {
      SelectsMembers(keep, rows, mine, mine[k]);
    }
    forall r | r in rows && keep(r) ensures r in mine {
      SelectsMembers(keep, rows, mine, r);
    }
  }

  // ---- The hashed text ----

  // The column that each key of the payload stands for.
  function Column(lib: Lib, c: Core, key: string): Scalar {
    match key
    case "seq" => (match c.seqNo case Some(n) => Number(n) case None => Null)
    case "action" => Text(c.fields.action)
    case "resource_type" => Text(c.fields.resourceType)
    case "resource_id" => Text(c.fields.resourceId)
    case "tenant_id" => OptText(c.fields.tenantId)
    case "actor" => OptText(c.fields.actor)
    case "actor_user_id" => OptText(c.fields.actorUserId)
    case "actor_type" => OptText(c.fields.actorType)
    case "action_type" => OptText(c.fields.actionType)
    case "policy_version" => OptText(c.fields.policyVersion)
    case "decision" => OptText(c.fields.decision)
    case "reason" => OptText(c.fields.reason)
    case "metadata_json" => OptText(c.fields.metadataJson)
    case "created_at" => OptText(Iso(lib, c.fields.createdAt))
    case _ => OptText(c.previousHash)
  }

  // Every member of the payload holds the column its key names.
  lemma PayloadColumns(lib: Lib, c: Core, k: nat)
    requires k < |PayloadMembers(lib, c)|
    ensures |PayloadMembers(lib, c)| == 15
    ensures PayloadMembers(lib, c)[k].1 == Column(lib, c, PayloadMembers(lib, c)[k].0)
  {
  }
}

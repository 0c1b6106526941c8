/**
 * Document assembly shared by both loaders: every record gets the session id, then
 * the session metrics merged over it, then each datetime value replaced by its ISO
 * string; the document is stored under `<prefix>-<i>` for the record's position i.
 */
module Documents {
  import opened Text
  import opened Values
  import opened Wrappers

  const SessionIdKey := "session_id"

  /** A value as it is sent to the store: a datetime becomes its `isoformat()` string. */
  function IsoValue(v: Value): Value {
    if v.DateTimeValue? then StrValue(IsoFormat(v.dt)) else v
  }

  function IsoDocument(doc: Record): Record {
    map k | k in doc :: IsoValue(doc[k])
  }

  /**
   * The in-place loop that rewrites each datetime value of a dict as its ISO string
   * (scripts/es_bulk_loader.py and scripts/load_fit_to_es.py carry the same loop).
   */
  method ConvertDatetimes(doc: Record) returns (converted: Record)
    ensures converted.Keys == doc.Keys
    ensures forall k :: k in doc && !doc[k].DateTimeValue? ==> converted[k] == doc[k]
    ensures forall k :: k in doc && doc[k].DateTimeValue? ==>
              converted[k].StrValue? && ParseIso(converted[k].s) == Some(doc[k].dt)
    ensures forall k :: k in converted ==> !converted[k].DateTimeValue?
    ensures converted == IsoDocument(doc)
  {
    converted := doc;
    var todo := doc.Keys;
    while todo != {}
      invariant todo <= doc.Keys && converted.Keys == doc.Keys
      invariant forall k :: k in doc ==> converted[k] == if k in todo then doc[k] else IsoValue(doc[k])
      decreases todo
    {
      var k :| k in todo;
      var value := converted[k];
      if value.DateTimeValue? {
        converted := converted[k := StrValue(IsoFormat(value.dt))];
      }
      todo := todo - {k};
    }
    forall k | k in doc && doc[k].DateTimeValue?
      ensures ParseIso(converted[k].s) == Some(doc[k].dt)
    {
      IsoFormatRoundTrip(doc[k].dt);
    }
  }

  /**
   * The document built from one record: a copy of the record, `session_id` set,
   * the metrics merged over it (so they win on shared keys), datetimes as ISO strings.
   */
  function BuildDocument(record: Record, sessionId: string, metrics: Record): (doc: Record)
  {
    IsoDocument(record[SessionIdKey := StrValue(sessionId)] + metrics)
  }

  /** Field by field, where each value of the document comes from. */
  lemma DocumentContents(record: Record, sessionId: string, metrics: Record)
    ensures BuildDocument(record, sessionId, metrics).Keys == record.Keys + {SessionIdKey} + metrics.Keys
    ensures forall k :: k in metrics ==> BuildDocument(record, sessionId, metrics)[k] == IsoValue(metrics[k])
    ensures SessionIdKey !in metrics ==> BuildDocument(record, sessionId, metrics)[SessionIdKey] == StrValue(sessionId)
    ensures forall k :: k in record && k != SessionIdKey && k !in metrics ==>
              BuildDocument(record, sessionId, metrics)[k] == IsoValue(record[k])
    ensures forall k :: k in BuildDocument(record, sessionId, metrics) ==>
              !BuildDocument(record, sessionId, metrics)[k].DateTimeValue?
  {
  }

  /** The deterministic document id `f"{prefix}-{i}"`. */
  function DocumentId(prefix: string, i: nat): string {
    prefix + "-" + NatToString(i)
  }

  /** An id is its prefix, a '-', and the decimal digits of the position, which read back as it. */
  lemma DocumentIdParts(prefix: string, i: nat)
    ensures var id := DocumentId(prefix, i);
      && |prefix| + 1 < |id| && id[..|prefix|] == prefix && id[|prefix|] == '-'
      && AllDigits(id[|prefix| + 1..]) && ReadDecimal(id[|prefix| + 1..]) == i
  {
    ReadNatToString(i);
    assert DocumentId(prefix, i)[|prefix| + 1..] == NatToString(i);
  }

  /** The last '-' of an id sits right after its prefix. */
  lemma LastDashOfId(p: string, i: nat)
    ensures RFind(DocumentId(p, i), '-') == |p|
  {
    var id, digits := DocumentId(p, i), NatToString(i);
    assert id[|p|] == '-';
    assert forall j :: |p| < j < |id| ==> id[j] == digits[j - |p| - 1];
  }

  /**
   * Ids never collide: since `str(i)` holds no '-', the last '-' of an id separates
   * the prefix from the position, whatever the prefix contains.
   */
  lemma DocumentIdInjective(p: string, i: nat, q: string, j: nat)
    requires DocumentId(p, i) == DocumentId(q, j)
    ensures p == q && i == j
  {
    var id := DocumentId(p, i);
    LastDashOfId(p, i);
    LastDashOfId(q, j);
    assert p == id[..|p|] == q;
    assert NatToString(i) == id[|p| + 1..] == NatToString(j);
    NatToStringInjective(i, j);
  }

  /** Records at different positions of one session get different ids. */
  lemma DocumentIdsDistinct(prefix: string, i: nat, j: nat)
    requires i != j
    ensures DocumentId(prefix, i) != DocumentId(prefix, j)
  {
    if DocumentId(prefix, i) == DocumentId(prefix, j) {
      DocumentIdInjective(prefix, i, prefix, j);
    }
  }
}

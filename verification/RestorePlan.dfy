/** What a page's plans promise together: every byte they will store fits under
    the cap with what is there already. */
module RestorePlan {
  import opened Records
  import opened D1
  import opened Writes
  import opened Restore
  import Serial

  /** Nothing to store, or room for it. */
  ghost predicate Fits(c: Ctx, used: nat, spent: nat) {
    spent == 0 || used + spent <= c.env.storageCap
  }

  lemma {:induction false} SpentPlus(plans: seq<VersionPlan>, vp: VersionPlan)
    ensures SpentBy(plans + [vp]) == SpentBy(plans) + vp.Spent()
  {
    assert (plans + [vp])[..|plans|] == plans;
  }

  /** A version is given bytes only when they fit after all that was planned. */
  lemma OneFits(c: Ctx, v: VersionRec, docLive: bool, used: nat)
    ensures
      var vp := PlanVersion(c, v, docLive, used);
      && (vp.prep.Some? ==> used + vp.Spent() <= c.env.storageCap)
      && (vp.prep.None? ==> vp.Spent() == 0)
  {
    hide ScreenAndPrepare;
  }

  lemma {:induction false} VersionsFit(c: Ctx, vs: seq<VersionRec>, docLive: bool, used: nat, plans: seq<VersionPlan>, base: nat)
    requires base <= used && Fits(c, base, used - base + SpentBy(plans))
    ensures Fits(c, base, used - base + SpentBy(PlanVersions(c, vs, docLive, used, plans)))
    decreases vs
  {
    hide PlanVersion;
    if vs != [] {
      var vp := PlanVersion(c, vs[0], docLive, used + SpentBy(plans));
      OneFits(c, vs[0], docLive, used + SpentBy(plans));
      SpentPlus(plans, vp);
      VersionsFit(c, vs[1..], docLive, used, plans + [vp], base);
    }
  }

  lemma DocFits(c: Ctx, id: string, doc: Doc, used: nat, held: set<string>, base: nat)
    requires base <= used && Fits(c, base, used - base)
    ensures Fits(c, base, used - base + PlanDoc(c, id, doc, used, held).spent)
  {
    hide PlanVersions, VersionsFor, IdentityConflict, SlugGranted, Renderable, Demoted, Dropped, KeysOfRows;
    var vs := VersionsFor(c.recs, id);
    VersionsFit(c, vs, doc.Live(), used, [], base);
    if id in c.inst.db.docs {
      VersionsFit(c, vs, c.inst.db.docs[id].Live(), used, [], base);
    }
  }

  lemma {:induction false} DocsFit(c: Ctx, recs: seq<Record>, used: nat, plans: seq<DocPlan>)
    requires Fits(c, used, Spending(plans))
    ensures Fits(c, used, Spending(PlanDocs(c, recs, used, plans)))
    decreases recs
  {
    hide PlanDoc, Held;
    if recs != [] {
      if recs[0].DocRecord? {
        var p := PlanDoc(c, recs[0].id, recs[0].doc, used + Spending(plans), Held(plans));
        DocFits(c, recs[0].id, recs[0].doc, used + Spending(plans), Held(plans), used);
        assert (plans + [p])[..|plans|] == plans;
        DocsFit(c, recs[1..], used, plans + [p]);
      } else {
        DocsFit(c, recs[1..], used, plans);
      }
    }
  }

  lemma SpendsPlus(batches: seq<Restore.Batch>, b: Restore.Batch)
    ensures Spends(batches + [b]) == Spends(batches) + SpentBy(b.plans)
  {
    hide SpentBy;
    assert (batches + [b])[..|batches|] == batches;
  }

  lemma {:induction false} StraysFit(c: Ctx, ids: seq<string>, used: nat, batches: seq<Restore.Batch>, base: nat)
    requires base <= used && Fits(c, base, used - base + Spends(batches))
    ensures Fits(c, base, used - base + Spends(PlanStrays(c, ids, used, batches)))
    decreases ids
  {
    hide PlanVersions, VersionsFor, Fits;
    if ids != [] {
      if ids[0] in c.inst.db.docs {
        var live := c.inst.db.docs[ids[0]].Live();
        var now := used + Spends(batches);
        var plans := PlanVersions(c, VersionsFor(c.recs, ids[0]), live, now, []);
        assert now - base + SpentBy([]) == used - base + Spends(batches);
        VersionsFit(c, VersionsFor(c.recs, ids[0]), live, now, [], base);
        var b := Restore.Batch(ids[0], plans);
        SpendsPlus(batches, b);
        assert now - base + SpentBy(plans) == used - base + Spends(batches + [b]);
        hide SpentBy, Spends;
        StraysFit(c, ids[1..], used, batches + [b], base);
      } else {
        StraysFit(c, ids[1..], used, batches, base);
      }
    }
  }

  /** However many documents and stray versions a page brings, all the bytes it
      plans to store fit under the cap on top of everything stored before. */
  lemma PageFitsTheCap(c: Ctx)
    ensures Fits(c, Serial.UsedBytes(c.inst.db), Spending(Plans(c)) + Spends(StrayBatches(c)))
  {
    hide PlanDocs, PlanStrays, Fits;
    var used := Serial.UsedBytes(c.inst.db);
    assert Fits(c, used, 0) by { NothingFits(c, used); }
    DocsFit(c, c.recs, used, []);
    StraysFit(c, Strays(c.recs, DocIds(c.recs), []), used + Spending(Plans(c)), [], used);
  }

  lemma NothingFits(c: Ctx, used: nat)
    ensures Fits(c, used, 0)
  {
  }

  // ---- one version, one document ---------------------------------------------

  /** When a version record gets its bytes: the author is there, the document is
      live, the row is new or may be replaced, and the file's source is the one the
      record's digest names, passes the screen of this instance and fits. What is
      stored is that source and its own render; the file's render plays no part. */
  lemma BytesAreTheRecordedSource(c: Ctx, v: VersionRec, docLive: bool, used: nat, html: Option<string>)
    ensures
      var vp := PlanVersion(c, v, docLive, used);
      && (vp.prep.Some? ==>
            && docLive && vp.action.Writes() && v.row.sha.Some?
            && vp.prep.value.source == v.row.sha.value.of
            && vp.prep.value.html == c.env.RenderOf(v.row.sha.value.of, v.row.format)
            && c.env.domDepth(vp.prep.value.html) <= MAX_DOM_DEPTH
            && used + Utf8Size(vp.prep.value.html) + Utf8Size(vp.prep.value.source) <= c.env.storageCap)
      && (docLive && vp.action.Writes() ==> vp.prep.Some?)
      && PlanVersion(c, v.(html := html), docLive, used) == vp.(rec := v.(html := html))
  {
    hide ScreenAndPrepare, Utf8Size;
    HtmlPlaysNoPart(c, v, docLive, used, html);
    if v.source.Some? {
      PassedIs(c.env, v.source.value, v.row.format);
    }
  }

  lemma HtmlPlaysNoPart(c: Ctx, v: VersionRec, docLive: bool, used: nat, html: Option<string>)
    ensures PlanVersion(c, v.(html := html), docLive, used) == PlanVersion(c, v, docLive, used).(rec := v.(html := html))
  {
    hide ScreenAndPrepare, Utf8Size;
  }

  /** A document that will be written has the identity the database knows or a new
      one, a creator that is there, a name no one holds, had or was promised, and if
      it is live, bytes for both its pointers. */
  lemma WrittenDocsAreSound(c: Ctx, id: string, doc: Doc, used: nat, held: set<string>)
    ensures
      var p := PlanDoc(c, id, doc, used, held);
      && (p.action.Writes() ==>
            && (id in c.inst.db.docs ==> c.replace && c.inst.db.docs[id].publicId == doc.publicId)
            && (forall d | d in c.inst.db.docs && c.inst.db.docs[d].publicId == doc.publicId :: d == id)
            && (doc.createdBy.Some? ==> c.Available(doc.createdBy.value))
            && (p.slug.Some? ==>
                  && p.slug == doc.slug && p.slug.value !in held && p.slug.value !in c.inst.db.tombs
                  && !LiveHolder(c.inst.db, p.slug.value, id))
            && (doc.Live() ==> Renderable(doc, p.versions)))
      && (!p.action.Writes() && !p.action.Skip? ==> forall i | 0 <= i < |p.versions| :: p.versions[i].prep.None? && !p.versions[i].action.Writes())
  {
    hide PlanVersions, VersionsFor, LiveHolder, Renderable, Dropped, SpentBy, KeysOfRows;
  }
}

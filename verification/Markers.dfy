/** Which suspend job a job is tied to: the documented markers are words, the
    tests of ctrl.py are substring tests. When the two agree. */
module Markers {
  import opened Base
  import opened Splitting
  import opened Jobs

  // ----- Words -----

  /** What separates flags, and the entries of a `depends` text. */
  predicate IsSeparator(c: char) {
    IsSpace(c) || c == ','
  }

  predicate IsMarker(m: string) {
    m != "" && forall c | c in m :: !IsSeparator(c)
  }

  /** A maximal run without separators. */
  predicate WordAt(text: string, i: nat, j: nat) {
    && i < j <= |text| && (forall k | i <= k < j :: !IsSeparator(text[k]))
    && (i == 0 || IsSeparator(text[i - 1])) && (j == |text| || IsSeparator(text[j]))
  }

  ghost predicate Word(text: string, w: string) {
    exists i: nat, j: nat :: WordAt(text, i, j) && text[i..j] == w
  }

  lemma {:induction false} WordStart(text: string, p: nat) returns (i: nat)
    requires p < |text| && !IsSeparator(text[p])
    ensures i <= p && (forall k | i <= k <= p :: !IsSeparator(text[k])) && (i == 0 || IsSeparator(text[i - 1]))
  {
    if p == 0 || IsSeparator(text[p - 1]) {
      i := p;
    } else {
      i := WordStart(text, p - 1);
    }
  }

  lemma {:induction false} WordEnd(text: string, p: nat) returns (j: nat)
    requires p < |text| && !IsSeparator(text[p])
    ensures p < j <= |text| && (forall k | p <= k < j :: !IsSeparator(text[k])) && (j == |text| || IsSeparator(text[j]))
    decreases |text| - p
  {
    if p + 1 == |text| || IsSeparator(text[p + 1]) {
      j := p + 1;
    } else {
      j := WordEnd(text, p + 1);
    }
  }

  lemma SliceWithin(s: string, i: nat, j: nat, a: nat, b: nat)
    requires i <= j <= |s| && a <= b <= j - i
    ensures s[i..j][a..b] == s[i + a..i + b]
  {
    var t := s[i..j];
    forall k | 0 <= k < b - a ensures t[a..b][k] == s[i + a..i + b][k] {
      assert t[a + k] == s[i + a + k];
    }
  }

  /** A marker found in a text lies within one of its words. */
  lemma WordAround(text: string, m: string, p: nat) returns (i: nat, j: nat)
    requires IsMarker(m) && p <= |text| - |m| && Occurs(text, m, p)
    ensures WordAt(text, i, j) && Contains(text[i..j], m)
  {
    OccursByCharacters(text, m, p);
    assert text[p + 0] == m[0];
    assert text[p + (|m| - 1)] == m[|m| - 1];
    i := WordStart(text, p);
    j := WordEnd(text, p + (|m| - 1));
    forall k | i <= k < j ensures !IsSeparator(text[k]) {
      if p <= k < p + |m| { assert text[p + (k - p)] == m[k - p]; }
    }
    SliceWithin(text, i, j, p - i, p - i + |m|);
    assert Occurs(text[i..j], m, p - i);
  }

  /** A text contains a marker exactly when one of its words does. */
  lemma ContainedInWord(text: string, m: string)
    requires IsMarker(m)
    ensures Contains(text, m) <==> exists w :: Word(text, w) && Contains(w, m)
  {
    if p :| 0 <= p <= |text| - |m| && Occurs(text, m, p) {
      var i, j := WordAround(text, m, p);
      assert Word(text, text[i..j]);
    }
    if w :| Word(text, w) && Contains(w, m) {
      WordIsContained(text, w);
      ContainsTransitive(text, w, m);
    }
  }

  lemma WordIsContained(text: string, w: string)
    requires Word(text, w)
    ensures Contains(text, w)
  {
    var i: nat, j: nat :| WordAt(text, i, j) && text[i..j] == w;
    assert i + |w| == j && Occurs(text, w, i);
  }

  lemma ContainsItself(w: string)
    ensures Contains(w, w)
  {
    assert w[0..0 + |w|] == w;
    assert Occurs(w, w, 0);
  }

  lemma ContainedIsShorter(w: string, m: string)
    requires Contains(w, m)
    ensures |m| <= |w|
  {
  }

  // ----- The markers -----

  /** The job carries the flag of the suspend job, or a sibling of it depends on
      the suspend job. */
  ghost predicate Names(suspendId: string, job: Job) {
    Word(job.flags, FlagOf(suspendId)) || SiblingNames(suspendId, job)
  }

  ghost predicate SiblingNames(suspendId: string, job: Job) {
    exists i :: 0 <= i < |job.siblings| && Word(job.siblings[i], suspendId)
  }

  /** Some other word contains the flag or the id of the suspend job. */
  ghost predicate Stray(suspendId: string, job: Job) {
    || HasStray(job.flags, FlagOf(suspendId))
    || exists i :: 0 <= i < |job.siblings| && HasStray(job.siblings[i], suspendId)
  }

  ghost predicate HasStray(text: string, m: string) {
    exists w :: Word(text, w) && w != m && Contains(w, m)
  }

  lemma MarkersJoin(a: string, b: string)
    requires IsMarker(a) && IsMarker(b)
    ensures IsMarker(a + b)
  {
  }

  lemma AutoFlagIsMarker()
    ensures IsMarker(AUTO_FLAG)
  {
  }

  lemma ManualFlagShape()
    ensures MANUAL_FLAG == AUTO_FLAG + "-manual" && IsMarker("-manual")
  {
  }

  lemma FlagsAreMarkers()
    ensures IsMarker(AUTO_FLAG) && IsMarker(MANUAL_FLAG)
  {
    AutoFlagIsMarker();
    ManualFlagShape();
    MarkersJoin(AUTO_FLAG, "-manual");
  }

  lemma NamespaceIsMarker()
    ensures IsMarker(NAMESPACE)
  {
  }

  lemma IdIsMarker()
    ensures IsMarker("::suspend/suspend_advanced")
  {
  }

  lemma SuffixIsMarker()
    ensures IsMarker("_auto")
  {
  }

  lemma IdsAreMarkers()
    ensures IsMarker(AUTO_JOB_ID) && IsMarker(MANUAL_JOB_ID)
  {
    NamespaceIsMarker();
    IdIsMarker();
    MarkersJoin(NAMESPACE, "::suspend/suspend_advanced");
    SuffixIsMarker();
    MarkersJoin(MANUAL_JOB_ID, "_auto");
  }

  lemma WordOrStray(text: string, m: string)
    requires IsMarker(m)
    ensures Contains(text, m) <==> Word(text, m) || HasStray(text, m)
  {
    ContainedInWord(text, m);
    ContainsItself(m);
  }

  /** A job is tied to a suspend job by what it names and by stray words. So the
      tie is to the suspend job it names, and to no other, exactly when no word
      is stray or the job is named as well. */
  lemma TiedByNameOrStray(suspendId: string, job: Job)
    requires suspendId == AUTO_JOB_ID || suspendId == MANUAL_JOB_ID
    ensures Impacts(suspendId, job) <==> Names(suspendId, job) || Stray(suspendId, job)
    ensures (Impacts(suspendId, job) <==> Names(suspendId, job)) <==> (Stray(suspendId, job) ==> Names(suspendId, job))
  {
    FlagsAreMarkers();
    IdsAreMarkers();
    WordOrStray(job.flags, FlagOf(suspendId));
    forall i | 0 <= i < |job.siblings|
      ensures Contains(job.siblings[i], suspendId)
              <==> Word(job.siblings[i], suspendId) || HasStray(job.siblings[i], suspendId)
    {
      WordOrStray(job.siblings[i], suspendId);
    }
  }

  // ----- With the documented markers alone -----

  /** Whatever looks like a marker is one: no other flag contains a flag, and no
      other entry of a sibling's `depends` contains an id of a suspend job. */
  ghost predicate OnlyMarkers(job: Job) {
    && (forall w | Word(job.flags, w) && Contains(w, AUTO_FLAG) :: w == AUTO_FLAG || w == MANUAL_FLAG)
    && (forall i, w | 0 <= i < |job.siblings| && Word(job.siblings[i], w) && Contains(w, MANUAL_JOB_ID) ::
          w == AUTO_JOB_ID || w == MANUAL_JOB_ID)
  }

  lemma MarkersOverlap()
    ensures Contains(MANUAL_FLAG, AUTO_FLAG) && Contains(AUTO_JOB_ID, MANUAL_JOB_ID)
    ensures !Contains(AUTO_FLAG, MANUAL_FLAG) && !Contains(MANUAL_JOB_ID, AUTO_JOB_ID)
    ensures AUTO_FLAG != MANUAL_FLAG && AUTO_JOB_ID != MANUAL_JOB_ID
  {
    ManualFlagShape();
    assert MANUAL_FLAG[0..0 + |AUTO_FLAG|] == AUTO_FLAG && AUTO_JOB_ID[0..0 + |MANUAL_JOB_ID|] == MANUAL_JOB_ID;
    assert Occurs(MANUAL_FLAG, AUTO_FLAG, 0) && Occurs(AUTO_JOB_ID, MANUAL_JOB_ID, 0);
  }

  lemma StrayForAuto(job: Job)
    requires OnlyMarkers(job)
    ensures Stray(AUTO_JOB_ID, job) <==> Word(job.flags, MANUAL_FLAG)
  {
    MarkersOverlap();
    forall i | 0 <= i < |job.siblings| ensures !HasStray(job.siblings[i], AUTO_JOB_ID) {
      if w :| Word(job.siblings[i], w) && w != AUTO_JOB_ID && Contains(w, AUTO_JOB_ID) {
        ContainsTransitive(w, AUTO_JOB_ID, MANUAL_JOB_ID);
      }
    }
  }

  lemma StrayForManual(job: Job)
    requires OnlyMarkers(job)
    ensures Stray(MANUAL_JOB_ID, job) <==> SiblingNames(AUTO_JOB_ID, job)
  {
    MarkersOverlap();
    if w :| Word(job.flags, w) && w != MANUAL_FLAG && Contains(w, MANUAL_FLAG) {
      ContainsTransitive(w, MANUAL_FLAG, AUTO_FLAG);
    }
    if i :| 0 <= i < |job.siblings| && Word(job.siblings[i], AUTO_JOB_ID) {
      assert HasStray(job.siblings[i], MANUAL_JOB_ID);
    }
  }

  /** The automatic suspend job waits for exactly the jobs that name it, unless
      one carries the manual flag without naming it. */
  lemma AutoTiedExactly(job: Job)
    requires OnlyMarkers(job)
    ensures (Impacts(AUTO_JOB_ID, job) <==> Names(AUTO_JOB_ID, job))
            <==> (Word(job.flags, MANUAL_FLAG) ==> Names(AUTO_JOB_ID, job))
  {
    TiedByNameOrStray(AUTO_JOB_ID, job);
    StrayForAuto(job);
  }

  /** The manual one waits for exactly the jobs that name it, unless one has a
      sibling that depends on the automatic one without naming it. */
  lemma ManualTiedExactly(job: Job)
    requires OnlyMarkers(job)
    ensures (Impacts(MANUAL_JOB_ID, job) <==> Names(MANUAL_JOB_ID, job))
            <==> (SiblingNames(AUTO_JOB_ID, job) ==> Names(MANUAL_JOB_ID, job))
  {
    TiedByNameOrStray(MANUAL_JOB_ID, job);
    StrayForManual(job);
  }

  lemma WholeText(m: string, w: string)
    requires IsMarker(m)
    ensures Word(m, w) <==> w == m
  {
    assert WordAt(m, 0, |m|) && m[0..|m|] == m;
    if i: nat, j: nat :| WordAt(m, i, j) && m[i..j] == w {
      assert i == 0 && j == |m|;
    }
  }

  /** The plain manual flag ties a job to the automatic suspend job, which it
      does not name. */
  lemma ManualFlagHoldsBackAuto(job: Job)
    requires job.flags == MANUAL_FLAG && job.siblings == []
    ensures Impacts(AUTO_JOB_ID, job) && !Names(AUTO_JOB_ID, job) && Names(MANUAL_JOB_ID, job)
  {
    MarkersOverlap();
    FlagsAreMarkers();
    WholeText(MANUAL_FLAG, AUTO_FLAG);
    WholeText(MANUAL_FLAG, MANUAL_FLAG);
  }

  /** A sibling that depends on the automatic suspend job ties a job to the
      manual one, which it does not name. */
  lemma AutoSiblingHoldsBackManual(job: Job)
    requires job.flags == "" && job.siblings == [AUTO_JOB_ID]
    ensures Impacts(MANUAL_JOB_ID, job) && !Names(MANUAL_JOB_ID, job) && Names(AUTO_JOB_ID, job)
  {
    MarkersOverlap();
    IdsAreMarkers();
    WholeText(AUTO_JOB_ID, MANUAL_JOB_ID);
    WholeText(AUTO_JOB_ID, AUTO_JOB_ID);
    assert Contains(job.siblings[0], MANUAL_JOB_ID) && Word(job.siblings[0], AUTO_JOB_ID);
  }
}

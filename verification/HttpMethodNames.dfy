/** Which octets are taken for which method. A mismatch in the third octet goes unnoticed
    for most methods, so that more than the 26 names are accepted. */
module HttpMethodNames {
  import opened Basics
  import opened HttpSyntax
  import opened HttpParser
  import opened HttpStream
  import opened HttpReads
  import opened HttpRequestLine

  /** The method guessed from the first octet. */
  function FirstGuess(ch: byte): Option<Method> {
    if IsAlpha(ch) then StartMethod(ch) else None
  }

  /** The guess after octet `n` of a name, unless the name ends or is refused there. */
  function NextGuess(g: Method, n: nat, ch: byte): Option<Method> {
    var word := MethodString(g);
    if n >= |word| || ch == '\0' then None
    else if ch == word[n] then Some(g)
    else Reguess(g, n, ch)
  }

  function Guess(w: seq<byte>): Option<Method>
    requires w != []
    decreases |w|
  {
    var n := |w| - 1;
    if n == 0 then FirstGuess(w[0])
    else if Guess(w[..n]).None? then None
    else NextGuess(Guess(w[..n]).value, n, w[n])
  }

  // Spellings.

  /** An octet other than the right one that is taken in the third place. */
  predicate FreeThird(m: Method, c: byte) {
    && !m.CONNECT? && !m.COPY? && !m.MKCOL? && !m.MKACTIVITY? && !m.SUBSCRIBE? && !m.PURGE? && !m.UNSUBSCRIBE?
    && c != '\0' && !(m.PUT? && c == 'R') && !(m.UNLOCK? && c == 'S')
  }

  predicate SpeltAt(m: Method, w: seq<byte>, i: nat)
    requires i < |w| && i < |MethodString(m)|
  {
    w[i] == MethodString(m)[i] || (i == 2 && FreeThird(m, w[i]))
  }

  /** `w` begins the name of `m`, but for a free third octet. */
  predicate Spells(m: Method, w: seq<byte>) {
    |w| <= |MethodString(m)| && forall i :: 0 <= i < |w| ==> SpeltAt(m, w, i)
  }

  // The corrections of the guess, seen from the method they lead to.

  lemma KeptGuess(g: Method, n: nat, ch: byte)
    requires Settled(g) <= n < |MethodString(g)| && ch != MethodString(g)[n] && ch != '\0'
    ensures Reguess(g, n, ch) == Some(g) <==> n == 2 && FreeThird(g, ch)
  {
  }

  lemma ChangedGuess(g: Method, n: nat, ch: byte, m: Method)
    requires Reguess(g, n, ch) == Some(m) && m != g
    ensures Origin(m) == Some((g, n)) && n < |MethodString(m)| && MethodString(m)[n] == ch
  {
    hide MethodString, Reguess, Origin;
    ChangedOrigin(g, n, ch, m);
    OriginCorrected(m);
    OneWay(g, n, ch, MethodString(m)[n]);
  }

  lemma ChangedOrigin(g: Method, n: nat, ch: byte, m: Method)
    requires Reguess(g, n, ch) == Some(m) && m != g
    ensures Origin(m) == Some((g, n))
  {
  }

  lemma OneWay(g: Method, n: nat, c: byte, d: byte)
    requires Reguess(g, n, c) == Reguess(g, n, d) && Reguess(g, n, c).Some? && Reguess(g, n, c).value != g
    ensures c == d
  {
  }

  /** A free third octet stays free when the guess is corrected behind it, and a guess
      corrected there has its third octet right. */
  lemma ThirdStays(m: Method, c: byte)
    requires Origin(m).Some?
    ensures Origin(m).value.1 > 2 ==> (FreeThird(m, c) <==> FreeThird(Origin(m).value.0, c))
    ensures Origin(m).value.1 == 2 ==> !FreeThird(m, c)
  {
  }

  lemma SpellsMore(m: Method, w: seq<byte>, ch: byte)
    requires Spells(m, w) && |w| < |MethodString(m)|
    ensures Spells(m, w + [ch]) <==> SpeltAt(m, w + [ch], |w|)
  {
    hide MethodString, FreeThird;
    assert forall i :: 0 <= i < |w| ==> SpeltAt(m, w, i) && (w + [ch])[i] == w[i];
  }

  lemma SpellsLess(m: Method, w: seq<byte>, n: nat)
    requires Spells(m, w) && n <= |w|
    ensures Spells(m, w[..n])
  {
    hide MethodString, FreeThird;
    assert forall i :: 0 <= i < n ==> SpeltAt(m, w, i) && w[..n][i] == w[i];
  }

  /** The prefix of a name that is reached by a correction, as the name guessed before. */
  lemma SpellsOrigin(m: Method, w: seq<byte>)
    requires Origin(m).Some? && |w| == Origin(m).value.1
    ensures Spells(m, w) <==> Spells(Origin(m).value.0, w)
  {
    hide MethodString, FreeThird, Origin, Reguess;
    var (g, k) := Origin(m).value;
    OriginFits(m);
    forall i | 0 <= i < |w| ensures SpeltAt(m, w, i) <==> SpeltAt(g, w, i) {
      OriginPrefix(m, i);
      ThirdStays(m, w[i]);
    }
  }

  /** What is guessed is spelt. */
  lemma {:induction false} GuessSpells(w: seq<byte>)
    requires w != [] && Guess(w).Some?
    ensures Spells(Guess(w).value, w) && Settled(Guess(w).value) <= |w|
    decreases |w|
  {
    hide MethodString, FreeThird, Origin, Reguess, Settled, Spells;
    var n := |w| - 1;
    if n == 0 {
      FirstIs(w[0], Guess(w).value);
      OneLetter(Guess(w).value, w);
    } else {
      var v, g, m := w[..n], Guess(w[..n]).value, Guess(w).value;
      GuessSpells(v);
      assert w == v + [w[n]];
      if m == g {
        if w[n] != MethodString(g)[n] { KeptGuess(g, n, w[n]); }
        SpellsMore(g, v, w[n]);
        LastSpelt(g, w, n);
      } else {
        ChangedGuess(g, n, w[n], m);
        SpellsOrigin(m, v);
        SpellsMore(m, v, w[n]);
        LastSpelt(m, w, n);
        SettledAt(m, g, n);
      }
    }
  }

  lemma FirstIs(ch: byte, m: Method)
    ensures FirstGuess(ch) == Some(m) <==> Origin(m).None? && ch == MethodString(m)[0]
  {
  }

  lemma OneLetter(m: Method, w: seq<byte>)
    requires |w| == 1 && Origin(m).None?
    ensures Spells(m, w) <==> w[0] == MethodString(m)[0]
    ensures Settled(m) == 1
  {
    hide MethodString, FreeThird;
    if w[0] == MethodString(m)[0] { assert SpeltAt(m, w, 0); }
    if Spells(m, w) { assert SpeltAt(m, w, 0); }
  }

  lemma LastSpelt(m: Method, w: seq<byte>, n: nat)
    requires n < |w| && n < |MethodString(m)|
    ensures SpeltAt(m, w, n) <==> w[n] == MethodString(m)[n] || (n == 2 && FreeThird(m, w[n]))
  {
  }

  lemma SettledAt(m: Method, g: Method, n: nat)
    requires Origin(m) == Some((g, n))
    ensures Settled(m) == n + 1
  {
  }

  /** What is spelt is guessed. */
  lemma {:induction false} SpellsGuess(m: Method, w: seq<byte>)
    requires w != [] && Spells(m, w) && Settled(m) <= |w|
    ensures Guess(w) == Some(m)
    decreases |w|
  {
    hide MethodString, FreeThird, Origin, Reguess, Settled, Spells;
    var n := |w| - 1;
    SpeltFits(m, w);
    var v := w[..n];
    assert w == v + [w[n]];
    if n == 0 {
      FirstSettled(m);
      OneLetter(m, w);
      FirstIs(w[0], m);
    } else {
      SpellsLess(m, w, n);
      SpellsMore(m, v, w[n]);
      LastSpelt(m, w, n);
      MethodOctets(m);
      if Settled(m) <= n {
        SpellsGuess(m, v);
        if w[n] != MethodString(m)[n] { NotNul(m, w[n]); KeptGuess(m, n, w[n]); }
      } else {
        LateSettled(m, n);
        var g := Origin(m).value.0;
        SettledAt(m, g, n);
        SpellsOrigin(m, v);
        OriginFits(m);
        SpellsGuess(g, v);
        ThirdStays(m, w[n]);
        OriginCorrected(m);
      }
    }
  }

  lemma SpeltFits(m: Method, w: seq<byte>)
    requires Spells(m, w)
    ensures |w| <= |MethodString(m)|
  {
  }

  lemma NotNul(m: Method, c: byte)
    requires FreeThird(m, c)
    ensures c != '\0'
  {
  }

  lemma FirstSettled(m: Method)
    requires Settled(m) <= 1
    ensures Origin(m).None?
  {
  }

  lemma LateSettled(m: Method, n: nat)
    requires 0 < n < Settled(m) <= n + 1
    ensures Origin(m).Some? && Origin(m).value.1 == n
  {
  }

  // The parser.

  ghost predicate InMethod(r: Run) {
    r.end.More? && r.p.state.ReqMethod?
  }

  /** The parser reads all of `w` as part of the method. */
  ghost predicate StaysInMethod(env: Env, p: Parser, w: seq<byte>) {
    forall k :: 0 < k <= |w| ==> InMethod(Parse(env, p, w[..k]))
  }

  /** It does, and the space behind ends the method as `m`. */
  ghost predicate NamesMethod(env: Env, p: Parser, w: seq<byte>, m: Method) {
    && w != [] && StaysInMethod(env, p, w)
    && var r := Parse(env, p, w + [' ']); r.end.More? && r.p.state.SpacesBeforeUrl? && r.p.meth == m
  }

  lemma StaysSnoc(env: Env, p: Parser, v: seq<byte>, ch: byte)
    ensures StaysInMethod(env, p, v + [ch]) <==> StaysInMethod(env, p, v) && InMethod(Parse(env, p, v + [ch]))
  {
    hide Parse, InMethod;
    var w := v + [ch];
    assert w[..|w|] == w;
    assert forall k :: 0 <= k <= |v| ==> w[..k] == v[..k];
    if StaysInMethod(env, p, w) {
      forall k | 0 < k <= |v| ensures InMethod(Parse(env, p, v[..k])) { assert InMethod(Parse(env, p, w[..k])); }
      if w != [] { assert InMethod(Parse(env, p, w[..|w|])); }
    }
  }

  lemma FirstFeed(env: Env, p: Parser, ch: byte)
    requires p.state.StartReq? && p.nread < env.limit
    ensures var f := Feed(env, p, ch);
      if FirstGuess(ch).Some? then f == Fed(Naming(p, FirstGuess(ch).value, 1), [Notice(MessageBegin)], More)
      else f.end.More? ==> f.p.state.StartReq?
  {
    hide StepResponse, StepStatus, StepMethod, StepUrl, StepRequestLine, StepHeaderField, StepHeaderValue,
         StepHeadersEnd, StepBody, StartMethod;
    var s := Switch(env, Advance(p, 1), ch, 1);
    assert s == StepStart(Advance(p, 1), ch, 1);
    assert [] + [Notice(MessageBegin)] + [] == [Notice(MessageBegin)];
  }

  lemma NextStep(p: Parser, g: Method, n: nat, ch: byte)
    requires 0 < n <= |MethodString(g)|
    ensures var s, guess := StepMethod(Advance(Naming(p, g, n), 1), ch, 1), NextGuess(g, n, ch);
      if guess.Some? then s == On(Naming(p, guess.value, n + 1))
      else if n == |MethodString(g)| && ch == ' ' then s == On(Naming(p, g, n + 1).(state := SpacesBeforeUrl))
      else s.go.Fail?
  {
    hide MethodString, Reguess;
    ReguessInside(g, n, ch);
  }

  lemma NextFeed(env: Env, p: Parser, g: Method, n: nat, ch: byte)
    requires p.nread + n < env.limit && 0 < n <= |MethodString(g)|
    ensures var f, guess := Feed(env, Naming(p, g, n), ch), NextGuess(g, n, ch);
      if guess.Some? then f == Fed(Naming(p, guess.value, n + 1), [], More)
      else if n == |MethodString(g)| && ch == ' ' then f == Fed(Naming(p, g, n + 1).(state := SpacesBeforeUrl), [], More)
      else f.end.Failed?
  {
    hide MethodString, NextGuess, StepMethod, Switch;
    var q := Advance(Naming(p, g, n), 1);
    NextStep(p, g, n, ch);
    MethodSwitch(env, q, ch, 1);
    var none: seq<Atom> := [];
    assert none + [] + [] == [];
    assert Count(Naming(p, g, n)) == q;
  }

  lemma ReguessInside(g: Method, n: nat, ch: byte)
    ensures n >= |MethodString(g)| ==> Reguess(g, n, ch).None?
  {
  }

  /** The parser follows the guesses. */
  lemma {:induction false} GuessRuns(env: Env, p: Parser, w: seq<byte>)
    requires p.state.StartReq? && w != [] && p.nread + |w| <= env.limit
    ensures StaysInMethod(env, p, w) <==> Guess(w).Some?
    ensures Guess(w).Some? ==>
      |w| <= |MethodString(Guess(w).value)|
      && Parse(env, p, w) == Run(Naming(p, Guess(w).value, |w|), [Notice(MessageBegin)], |w|, More)
    decreases |w|
  {
    hide Parse, FirstGuess, NextGuess, MethodString, StaysInMethod, Feed, Spells, Settled;
    var n := |w| - 1;
    var v := w[..n];
    assert w == v + [w[n]];
    StaysSnoc(env, p, v, w[n]);
    if Guess(w).Some? {
      GuessSpells(w);
      SpeltFits(Guess(w).value, w);
    }
    if n == 0 {
      assert v == [] && w == [w[0]];
      FirstFeed(env, p, w[0]);
      ReadsNothing(env, p);
      EndsWith(env, p, [], [], p, w[0]);
      NoneStays(env, p);
    } else {
      GuessRuns(env, p, v);
      if Guess(v).Some? {
        var g := Guess(v).value;
        NextFeed(env, p, g, n, w[n]);
        EndsWith(env, p, v, [Notice(MessageBegin)], Naming(p, g, n), w[n]);
      }
    }
  }

  lemma NoneStays(env: Env, p: Parser)
    ensures StaysInMethod(env, p, [])
  {
  }

  /** The names under which a method is accepted: its own, and for most methods any with
      another third octet. */
  lemma MethodExact(env: Env, p: Parser, w: seq<byte>, m: Method)
    requires p.state.StartReq? && w != [] && p.nread + |w| + 1 <= env.limit
    ensures NamesMethod(env, p, w, m) <==> Spells(m, w) && |w| == |MethodString(m)|
  {
    hide Parse, Guess, MethodString, StaysInMethod, Feed, Spells, Settled;
    GuessRuns(env, p, w);
    if Guess(w).Some? {
      var g := Guess(w).value;
      GuessSpells(w);
      NextFeed(env, p, g, |w|, ' ');
      EndsWith(env, p, w, [Notice(MessageBegin)], Naming(p, g, |w|), ' ');
    }
    if Spells(m, w) && |w| == |MethodString(m)| {
      SettledFits(m);
      SpellsGuess(m, w);
      FullName(m);
    }
  }

  lemma FullName(m: Method)
    ensures NextGuess(m, |MethodString(m)|, ' ').None?
  {
  }

  /** Such a name that is none of the 26. */
  lemma MisspeltMethod(env: Env, p: Parser)
    requires p.state.StartReq? && p.nread + 4 <= env.limit
    ensures NamesMethod(env, p, "GEX", GET)
  {
    MethodExact(env, p, "GEX", GET);
    assert SpeltAt(GET, "GEX", 0) && SpeltAt(GET, "GEX", 1) && SpeltAt(GET, "GEX", 2);
    hide NamesMethod;
  }
}

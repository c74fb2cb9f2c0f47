/** How many pairings there can be: one for each word of four letters over the
    alphabet, because codes are distinct and never released. */
module PairingCodes {
  import opened Wrappers
  import opened Text
  import opened AuthTables
  import opened AuthInvariant
  import Pairings

  function Letters(): set<char> {
    set c | c in ALPHABET
  }

  function Extend(words: set<string>, letters: set<char>): set<string> {
    set w, c | w in words && c in letters :: w + [c]
  }

  function Words(letters: set<char>, n: nat): set<string> {
    if n == 0 then {""} else Extend(Words(letters, n - 1), letters)
  }

  function Power(base: nat, n: nat): nat {
    if n == 0 then 1 else Power(base, n - 1) * base
  }

  lemma ExtendedFrom(words: set<string>, letters: set<char>, x: string)
    ensures x in Extend(words, letters) <==> x != "" && x[..|x| - 1] in words && x[|x| - 1] in letters
  {
    if x in Extend(words, letters) {
      var w, c :| w in words && c in letters && w + [c] == x;
      assert x[..|x| - 1] == w && x[|x| - 1] == c;
    }
    if x != "" {
      assert x == x[..|x| - 1] + [x[|x| - 1]];
    }
  }

  lemma NoLetters(w: string)
    ensures Extend({w}, {}) == {}
  {
  }

  lemma {:induction false} OneWordExtended(w: string, letters: set<char>)
    ensures |Extend({w}, letters)| == |letters|
    decreases letters
  {
    hide Extend;
    if letters == {} {
      NoLetters(w);
    } else {
      var c :| c in letters;
      var rest := letters - {c};
      OneWordExtended(w, rest);
      forall x ensures x in Extend({w}, letters) <==> x in Extend({w}, rest) || x == w + [c] {
        ExtendedFrom({w}, letters, x);
        ExtendedFrom({w}, rest, x);
      }
      ExtendedFrom({w}, rest, w + [c]);
      assert Extend({w}, letters) == Extend({w}, rest) + {w + [c]};
    }
  }

  lemma {:induction false} ExtendedCount(words: set<string>, letters: set<char>)
    ensures |Extend(words, letters)| == |words| * |letters|
    decreases words
  {
    hide Extend;
    if words == {} {
      NothingExtended(letters);
    } else {
      var w :| w in words;
      var rest := words - {w};
      ExtendedCount(rest, letters);
      OneWordExtended(w, letters);
      ExtendedSplits(words, letters, w);
    }
  }

  lemma NothingExtended(letters: set<char>)
    ensures Extend({}, letters) == {}
  {
  }

  lemma ExtendedSplits(words: set<string>, letters: set<char>, w: string)
    requires w in words
    ensures Extend(words, letters) == Extend(words - {w}, letters) + Extend({w}, letters)
    ensures Extend(words - {w}, letters) !! Extend({w}, letters)
  {
    forall x ensures x in Extend(words - {w}, letters) <==> x in Extend(words, letters) && x[..|x| - 1] != w {
      ExtendedFrom(words, letters, x);
      ExtendedFrom(words - {w}, letters, x);
    }
    forall x ensures x in Extend({w}, letters) <==> x in Extend(words, letters) && x[..|x| - 1] == w {
      ExtendedFrom(words, letters, x);
      ExtendedFrom({w}, letters, x);
    }
  }

  lemma {:induction false} WordCount(letters: set<char>, n: nat)
    ensures |Words(letters, n)| == Power(|letters|, n)
  {
    if n > 0 {
      WordCount(letters, n - 1);
      ExtendedCount(Words(letters, n - 1), letters);
    }
  }

  lemma {:induction false} WordsAre(letters: set<char>, n: nat, w: string)
    ensures w in Words(letters, n) <==> |w| == n && forall i :: 0 <= i < |w| ==> w[i] in letters
  {
    if n > 0 {
      ExtendedFrom(Words(letters, n - 1), letters, w);
      if w != "" {
        WordsAre(letters, n - 1, w[..|w| - 1]);
      }
    }
  }

  // The letter at each place of the alphabet, in one formula.
  function LetterAt(i: nat): int {
    if i < 8 then 65 + i else if i < 13 then 66 + i else if i < 24 then 67 + i else 26 + i
  }

  lemma AlphabetLetters()
    ensures |ALPHABET| == 32
    ensures forall i :: 0 <= i < 32 ==> ALPHABET[i] as int == LetterAt(i)
  {
  }

  lemma {:induction false} DistinctCount(s: string)
    requires forall i, j :: 0 <= i < j < |s| ==> s[i] != s[j]
    ensures |set c | c in s| == |s|
  {
    if s != "" {
      var n := |s| - 1;
      var init := s[..n];
      DistinctCount(init);
      assert s == init + [s[n]];
      assert (set c | c in s) == (set c | c in init) + {s[n]};
      assert s[n] !in init;
    }
  }

  lemma LetterCount()
    ensures |Letters()| == 32
  {
    AlphabetLetters();
    forall i, j | 0 <= i < j < |ALPHABET| ensures ALPHABET[i] != ALPHABET[j] {
      assert ALPHABET[i] as int == LetterAt(i) && ALPHABET[j] as int == LetterAt(j);
    }
    DistinctCount(ALPHABET);
  }

  /** There are 32^4 pairing codes. */
  lemma CodeCount()
    ensures |Words(Letters(), CODE_LENGTH)| == 1048576
    ensures forall w :: w in Words(Letters(), CODE_LENGTH) <==> IsPairingCode(w)
  {
    LetterCount();
    WordCount(Letters(), 4);
    assert Power(32, 4) == 1048576 by {
      assert Power(32, 1) == 32 && Power(32, 2) == 1024 && Power(32, 3) == 32768;
    }
    forall w ensures w in Words(Letters(), CODE_LENGTH) <==> IsPairingCode(w) {
      WordsAre(Letters(), CODE_LENGTH, w);
    }
  }

  // ---------- codes in use ----------

  function CodesOf(pairings: map<string, Pairing>): set<string> {
    set key | key in pairings :: pairings[key].userCode
  }

  lemma {:induction false} OneCodeEach(pairings: map<string, Pairing>)
    requires CodesDistinct(pairings)
    ensures |CodesOf(pairings)| == |pairings|
    decreases |pairings|
  {
    hide CodesOf;
    if pairings == map[] {
      NoCodes();
    } else {
      var key :| key in pairings;
      OneCodeEach(pairings - {key});
      CodesWithout(pairings, key);
      assert pairings.Keys == (pairings - {key}).Keys + {key};
      assert |pairings| == |pairings.Keys|;
    }
  }

  lemma NoCodes()
    ensures CodesOf(map[]) == {}
  {
  }

  lemma CodesWithout(pairings: map<string, Pairing>, key: string)
    requires CodesDistinct(pairings) && key in pairings
    ensures CodesOf(pairings) == CodesOf(pairings - {key}) + {pairings[key].userCode}
    ensures pairings[key].userCode !in CodesOf(pairings - {key})
  {
    forall code | code in CodesOf(pairings)
      ensures code in CodesOf(pairings - {key}) || code == pairings[key].userCode
    {
      var k :| k in pairings && pairings[k].userCode == code;
      assert k == key || k in pairings - {key};
    }
  }

  lemma CodesAreWords(t: Tables)
    requires Inv(t)
    ensures CodesOf(t.pairings) <= Words(Letters(), CODE_LENGTH)
    ensures |CodesOf(t.pairings)| == |t.pairings|
  {
    hide IsPairingCode, Words;
    CodeCount();
    OneCodeEach(t.pairings);
  }

  lemma SubsetCount<T>(a: set<T>, b: set<T>)
    requires a <= b
    ensures |a| <= |b|
    ensures |a| == |b| <==> a == b
  {
    assert b == a + (b - a);
    assert |b| == |a| + |b - a|;
  }

  /** No reachable store holds more than 32^4 pairings. */
  lemma PairingsAreBounded(hash: Hash, calls: seq<Call>)
    requires RunAdmissible(hash, EMPTY, calls)
    ensures |Run(hash, EMPTY, calls).pairings| <= 1048576
  {
    hide Inv, Words, RunAdmissible, Run;
    var t := Run(hash, EMPTY, calls);
    EmptyIsOk();
    RunKeepsInv(hash, EMPTY, calls);
    CodesAreWords(t);
    CodeCount();
    SubsetCount(CodesOf(t.pairings), Words(Letters(), CODE_LENGTH));
  }

  // A call to create a pairing, with a device code of its own, that the caller may make.
  predicate CreatesPairing(hash: Hash, t: Tables, device: string, attempts: seq<string>) {
    Admissible(t, CreatePairing(device, attempts)) && hash(device) !in t.pairings
  }

  /** A store has room for another pairing exactly as long as it holds fewer than
      32^4: then some draw of codes succeeds, and after that every draw fails. */
  lemma CreateSucceedsWhileCodesRemain(hash: Hash, t: Tables, device: string, now: int)
    requires Inv(t) && hash(device) !in t.pairings
    ensures |t.pairings| < 1048576 <==>
              exists attempts :: CreatesPairing(hash, t, device, attempts)
                                 && CreatePairingStep(hash, t, device, attempts, now).outcome.PairingStarted?
  {
    hide Inv, Words, IsPairingCode, CreatesPairing;
    CodesAreWords(t);
    CodeCount();
    var all := Words(Letters(), CODE_LENGTH);
    SubsetCount(CodesOf(t.pairings), all);
    if |t.pairings| < 1048576 {
      var code :| code in all && code !in CodesOf(t.pairings);
      FreeCodeWorks(hash, t, device, code, now);
    }
    forall attempts | CreatesPairing(hash, t, device, attempts)
                      && CreatePairingStep(hash, t, device, attempts, now).outcome.PairingStarted?
      ensures |t.pairings| < 1048576
    {
      StartedFromFreeCode(hash, t, device, attempts, now);
    }
  }

  lemma FreeCodeWorks(hash: Hash, t: Tables, device: string, code: string, now: int)
    requires IsPairingCode(code) && code !in CodesOf(t.pairings) && hash(device) !in t.pairings
    ensures exists attempts :: CreatesPairing(hash, t, device, attempts)
                               && CreatePairingStep(hash, t, device, attempts, now).outcome.PairingStarted?
  {
    hide IsPairingCode;
    var attempts := seq(CODE_ATTEMPTS, _ => code);
    assert attempts[0] == code && !CodeInUse(t.pairings, code);
    assert CreatesPairing(hash, t, device, attempts);
    assert CreatePairingStep(hash, t, device, attempts, now).outcome.PairingStarted?;
  }

  lemma StartedFromFreeCode(hash: Hash, t: Tables, device: string, attempts: seq<string>, now: int)
    requires CreatesPairing(hash, t, device, attempts)
    requires CreatePairingStep(hash, t, device, attempts, now).outcome.PairingStarted?
    ensures exists code :: IsPairingCode(code) && code !in CodesOf(t.pairings)
  {
    hide IsPairingCode;
    var k := FirstFree(t.pairings, hash(device), attempts);
    assert IsPairingCode(attempts[k]) && attempts[k] !in CodesOf(t.pairings);
  }

  /** Once every code is taken, every further create raises, now and after any run. */
  lemma ExhaustedForEver(hash: Hash, t: Tables, calls: seq<Call>, device: string, attempts: seq<string>, now: int)
    requires Inv(t) && |t.pairings| == 1048576 && RunAdmissible(hash, t, calls)
    requires Admissible(Run(hash, t, calls), CreatePairing(device, attempts))
    ensures CreatePairingStep(hash, Run(hash, t, calls), device, attempts, now)
            == Reply(Run(hash, t, calls), Failed(NoPairingCodeLeft))
  {
    hide Inv, Words, IsPairingCode, RunAdmissible, Run;
    var later := Run(hash, t, calls);
    RunKeepsInv(hash, t, calls);
    NothingIsReleased(hash, t, calls);
    CodesAreWords(t);
    CodesAreWords(later);
    CodeCount();
    var all := Words(Letters(), CODE_LENGTH);
    SubsetCount(CodesOf(t.pairings), all);
    SubsetCount(CodesOf(t.pairings), CodesOf(later.pairings));
    SubsetCount(CodesOf(later.pairings), all);
    forall i | 0 <= i < |attempts| ensures CodeInUse(later.pairings, attempts[i]) {
      assert attempts[i] in CodesOf(later.pairings);
    }
  }

  lemma NothingIsReleased(hash: Hash, t: Tables, calls: seq<Call>)
    ensures CodesOf(t.pairings) <= CodesOf(Run(hash, t, calls).pairings)
  {
    hide Run;
    forall code | code in CodesOf(t.pairings) ensures code in CodesOf(Run(hash, t, calls).pairings) {
      var key :| key in t.pairings && t.pairings[key].userCode == code;
      Pairings.ClaimedAtMostOnce(hash, t, calls, key);
    }
  }
}

/** The lexicon: the built-in difficulty tiers of words with their hints, a
    room's custom words, and the sampling of the word choices offered to a
    drawer. */
module Lexicon {

  /** One word a drawer may be offered, with the hint shown during the round. */
  datatype WordEntry = WordEntry(word: string, hint: string, difficulty: string)

  /** The built-in `easy` tier (20 entries). */
  const EasyWords: seq<WordEntry> := [
    WordEntry("Kaaba", "Holy site in Mecca", "easy"),
    WordEntry("Mosque", "Place of worship", "easy"),
    WordEntry("Prayer", "Salah", "easy"),
    WordEntry("Quran", "Holy book", "easy"),
    WordEntry("Ramadan", "Month of fasting", "easy"),
    WordEntry("Eid", "Islamic celebration", "easy"),
    WordEntry("Moon", "Islamic symbol", "easy"),
    WordEntry("Star", "Islamic symbol", "easy"),
    WordEntry("Angel", "Malak", "easy"),
    WordEntry("Prophet", "Messenger of God", "easy"),
    WordEntry("Heaven", "Jannah", "easy"),
    WordEntry("Hell", "Jahannam", "easy"),
    WordEntry("Mercy", "Allah is merciful", "easy"),
    WordEntry("Peace", "Salam", "easy"),
    WordEntry("Faith", "Iman", "easy"),
    WordEntry("Book", "Religious scripture", "easy"),
    WordEntry("Water", "Used for wudu", "easy"),
    WordEntry("Heart", "Qalb", "easy"),
    WordEntry("Light", "Nur", "easy"),
    WordEntry("Truth", "Haqq", "easy")
  ]

  /** The built-in `medium` tier (25 entries). */
  const MediumWords: seq<WordEntry> := [
    WordEntry("Minaret", "Tower of mosque", "medium"),
    WordEntry("Hijab", "Head covering", "medium"),
    WordEntry("Wudu", "Ablution before prayer", "medium"),
    WordEntry("Mihrab", "Prayer niche in mosque", "medium"),
    WordEntry("Tasbih", "Prayer beads", "medium"),
    WordEntry("Sajdah", "Prostration in prayer", "medium"),
    WordEntry("Zakat", "Charitable giving", "medium"),
    WordEntry("Hajj", "Pilgrimage to Mecca", "medium"),
    WordEntry("Crescent", "Moon shape symbol", "medium"),
    WordEntry("Dome", "Top of mosque", "medium"),
    WordEntry("Zamzam", "Holy water from Mecca", "medium"),
    WordEntry("Sunnah", "Way of the Prophet", "medium"),
    WordEntry("Hadith", "Prophetic sayings", "medium"),
    WordEntry("Jannah", "Paradise", "medium"),
    WordEntry("Jahannam", "Hellfire", "medium"),
    WordEntry("Tawhid", "Oneness of God", "medium"),
    WordEntry("Imam", "Prayer leader", "medium"),
    WordEntry("Suhoor", "Pre-dawn meal", "medium"),
    WordEntry("Iftar", "Breaking fast", "medium"),
    WordEntry("Sadaqah", "Voluntary charity", "medium"),
    WordEntry("Dua", "Supplication", "medium"),
    WordEntry("Dhikr", "Remembrance of Allah", "medium"),
    WordEntry("Taraweeh", "Ramadan night prayer", "medium"),
    WordEntry("Ummah", "Muslim community", "medium"),
    WordEntry("Khutbah", "Friday sermon", "medium")
  ]

  /** The built-in `hard` tier (25 entries). */
  const HardWords: seq<WordEntry> := [
    WordEntry("Muezzin", "Person who calls to prayer", "hard"),
    WordEntry("Qibla", "Direction of prayer", "hard"),
    WordEntry("Adhan", "Call to prayer", "hard"),
    WordEntry("Tawaf", "Circling the Kaaba", "hard"),
    WordEntry("Ihram", "Sacred state for pilgrimage", "hard"),
    WordEntry("Umrah", "Lesser pilgrimage", "hard"),
    WordEntry("Jummah", "Friday congregational prayer", "hard"),
    WordEntry("Qiyam", "Standing in prayer", "hard"),
    WordEntry("Ruku", "Bowing in prayer", "hard"),
    WordEntry("Takbir", "Allahu Akbar", "hard"),
    WordEntry("Shahada", "Declaration of faith", "hard"),
    WordEntry("Isra", "Night journey", "hard"),
    WordEntry("Miraj", "Ascension to heaven", "hard"),
    WordEntry("Laylatul Qadr", "Night of Power", "hard"),
    WordEntry("Ghusl", "Full ritual bath", "hard"),
    WordEntry("Tayammum", "Dry ablution", "hard"),
    WordEntry("Fitrah", "Natural disposition", "hard"),
    WordEntry("Barakah", "Divine blessing", "hard"),
    WordEntry("Taqwa", "God consciousness", "hard"),
    WordEntry("Ijma", "Scholarly consensus", "hard"),
    WordEntry("Ijtihad", "Independent reasoning", "hard"),
    WordEntry("Khilafah", "Caliphate", "hard"),
    WordEntry("Madhab", "School of thought", "hard"),
    WordEntry("Mufti", "Islamic legal expert", "hard"),
    WordEntry("Qadi", "Islamic judge", "hard")
  ]
  function Min(a: nat, b: nat): nat { if a <= b then a else b }

  /** The tier a room draws from: the named tier, or `medium` for any other
      difficulty string. */
  function TierWords(difficulty: string): (ws: seq<WordEntry>)
    ensures |ws| >= 20
    ensures difficulty in {"easy", "medium", "hard"} ==>
              forall i :: 0 <= i < |ws| ==> ws[i].difficulty == difficulty
    ensures difficulty !in {"easy", "medium", "hard"} ==> ws == MediumWords
  {
    if difficulty == "easy" then EasyWords
    else if difficulty == "medium" then MediumWords
    else if difficulty == "hard" then HardWords
    else MediumWords
  }

  /** A custom word becomes an entry with a fixed hint and tier. */
  function CustomEntry(w: string): WordEntry {
    WordEntry(w, "Custom word", "custom")
  }

  /** The pool a room samples from: its custom words, in the order given,
      followed by its tier's entries. */
  function Pool(customWords: seq<string>, difficulty: string): (pool: seq<WordEntry>)
    ensures |pool| == |customWords| + |TierWords(difficulty)|
    ensures forall i :: 0 <= i < |customWords| ==> pool[i] == CustomEntry(customWords[i])
    ensures pool[|customWords|..] == TierWords(difficulty)
  {
    seq(|customWords|, i requires 0 <= i < |customWords| => CustomEntry(customWords[i]))
      + TierWords(difficulty)
  }

  /** `shuffled` is a rearrangement of `pool`: the outcome of sorting a copy
      of the pool with a random comparator, supplied by the caller. */
  predicate IsShuffle(shuffled: seq<WordEntry>, pool: seq<WordEntry>) {
    multiset(shuffled) == multiset(pool)
  }

  /** The first `count` entries of the shuffled pool (all of it when the pool
      is smaller). */
  function Sample(pool: seq<WordEntry>, shuffled: seq<WordEntry>, count: nat): (r: seq<WordEntry>)
    requires IsShuffle(shuffled, pool)
    ensures |r| == Min(count, |pool|)
    ensures multiset(r) <= multiset(pool)
    ensures forall i :: 0 <= i < |r| ==> r[i] in pool
  {
    assert |shuffled| == |multiset(shuffled)| == |multiset(pool)| == |pool|;
    var r := shuffled[..Min(count, |shuffled|)];
    PrefixIncluded(shuffled, |r|);
    forall i | 0 <= i < |r| ensures r[i] in pool {
      assert r[i] in multiset(r);
    }
    r
  }

  /** A prefix of a sequence holds no element more often than the sequence. */
  lemma PrefixIncluded<T>(s: seq<T>, k: nat)
    requires k <= |s|
    ensures multiset(s[..k]) <= multiset(s)
  {
    assert s == s[..k] + s[k..];
  }

  /** When at least as many words are asked for as the pool holds, the whole
      pool is offered: the sample is a rearrangement of the pool. */
  lemma WholePoolOffered(pool: seq<WordEntry>, shuffled: seq<WordEntry>, count: nat)
    requires IsShuffle(shuffled, pool)
    requires count >= |pool|
    ensures multiset(Sample(pool, shuffled, count)) == multiset(pool)
  {
    assert |shuffled| == |multiset(shuffled)| == |multiset(pool)| == |pool|;
    assert shuffled[..|shuffled|] == shuffled;
  }

  /** Every entry of the pool is offered when the whole pool fits. */
  lemma EntryOffered(pool: seq<WordEntry>, shuffled: seq<WordEntry>, count: nat, i: nat)
    requires IsShuffle(shuffled, pool)
    requires count >= |pool| && i < |pool|
    ensures pool[i] in Sample(pool, shuffled, count)
  {
    WholePoolOffered(pool, shuffled, count);
    assert pool[i] in multiset(pool);
  }

  /** A room's custom word is always among the choices when the whole pool
      fits in the sample. */
  lemma CustomWordOffered(customWords: seq<string>, difficulty: string,
                          shuffled: seq<WordEntry>, count: nat, i: nat)
    requires IsShuffle(shuffled, Pool(customWords, difficulty))
    requires count >= |Pool(customWords, difficulty)|
    requires i < |customWords|
    ensures CustomEntry(customWords[i]) in Sample(Pool(customWords, difficulty), shuffled, count)
  {
    var pool := Pool(customWords, difficulty);
    EntryOffered(pool, shuffled, count, i);
  }

  /** `getRandomWords(3)`, the program's only call, on a pool of at least
      three entries: the words offered are the first three of the shuffle,
      each an entry of the pool. */
  lemma ThreeChoices(pool: seq<WordEntry>, shuffled: seq<WordEntry>)
    requires IsShuffle(shuffled, pool) && |pool| >= 3
    ensures var r := Sample(pool, shuffled, 3);
      && |r| == 3 && r == shuffled[..3]
      && forall j :: 0 <= j < 3 ==> r[j] in pool
  {
    assert |shuffled| == |multiset(shuffled)| == |multiset(pool)| == |pool|;
  }

  /** Every entry of a room's pool is one of its custom words or a word of
      its tier; so are, by `ThreeChoices`, the three words it offers. */
  lemma PoolOrigin(customWords: seq<string>, difficulty: string, e: WordEntry)
    requires e in Pool(customWords, difficulty)
    ensures e in TierWords(difficulty)
            || exists i :: 0 <= i < |customWords| && e == CustomEntry(customWords[i])
  {
    var pool := Pool(customWords, difficulty);
    var p :| 0 <= p < |pool| && pool[p] == e;
    if p >= |customWords| {
      assert e == pool[|customWords|..][p - |customWords|];
    }
  }

  /** Every room is offered exactly `count` choices when `count` is at most
      20, since every tier holds at least 20 words. */
  lemma FullChoice(customWords: seq<string>, difficulty: string,
                   shuffled: seq<WordEntry>, count: nat)
    requires IsShuffle(shuffled, Pool(customWords, difficulty))
    requires count <= 20
    ensures |Sample(Pool(customWords, difficulty), shuffled, count)| == count
  {
  }
}

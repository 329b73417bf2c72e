/**
 `classify` (api/index.py): a total score, clamped to [0,30], falls into one
 of three tiers with inclusive upper bounds 9 and 19; each tier carries a
 category name, a piece of advice and a display colour.
 */
module Classifier {

  datatype Classification = Classification(cat: string, advice: string, color: string)

  const MinScore := 0
  const MaxScore := 30

  const Baik := Classification(
    "Baik",
    "Pertahankan pola hidup sehat, teruskan refleksi diri. Fokus pada kualitas tidur dan relasi sosial positif.",
    "#16a34a")

  const PerluPerhatianRingan := Classification(
    "Perlu Perhatian Ringan",
    "Coba atur jadwal harian, fokus pada teknik relaksasi ringan, dan pastikan mendapat istirahat yang cukup. Kurangi begadang.",
    "#f59e0b")

  const DisarankanKonsultasi := Classification(
    "Disarankan Konsultasi",
    "Skor menunjukkan kebutuhan perhatian yang lebih besar. Pertimbangkan segera berkonsultasi dengan profesional kesehatan mental (psikolog/psikiater).",
    "#ef4444")

  /** `max(0, min(30, total))`. */
  function Clamp(total: int): (t: int)
    ensures MinScore <= t <= MaxScore
    ensures MinScore <= total <= MaxScore ==> t == total
    ensures total < MinScore ==> t == MinScore
    ensures total > MaxScore ==> t == MaxScore
  {
    var upper := if MaxScore < total then MaxScore else total;
    if MinScore > upper then MinScore else upper
  }

  /** `classify`: the score is clamped only when it is out of range (the
      service logs a warning then), and the clamped value picks the tier. */
  function Classify(total: int): (c: Classification)
    ensures c == Baik || c == PerluPerhatianRingan || c == DisarankanKonsultasi
  {
    var t := if !(MinScore <= total <= MaxScore) then Clamp(total) else total;
    if t <= 9 then Baik
    else if t <= 19 then PerluPerhatianRingan
    else DisarankanKonsultasi
  }

  /** Position of a tier in the order of increasing concern. */
  function Rank(c: Classification): nat {
    if c == Baik then 0 else if c == PerluPerhatianRingan then 1 else 2
  }

  /** The three tiers differ in every field, so the category alone (the one
      field the history keeps) identifies the tier. */
  lemma TiersDistinct()
    ensures Baik.cat != PerluPerhatianRingan.cat && Baik.cat != DisarankanKonsultasi.cat
    ensures PerluPerhatianRingan.cat != DisarankanKonsultasi.cat
    ensures Baik.color != PerluPerhatianRingan.color && Baik.color != DisarankanKonsultasi.color
    ensures PerluPerhatianRingan.color != DisarankanKonsultasi.color
  {
  }

  /** The tier of each score band: up to 9, 10 to 19, and 20 upwards,
      negatives landing in the first band. */
  lemma ClassifyBands(t: int)
    ensures t <= 9 ==> Classify(t) == Baik
    ensures 10 <= t <= 19 ==> Classify(t) == PerluPerhatianRingan
    ensures 20 <= t ==> Classify(t) == DisarankanKonsultasi
  {
  }

  /** Classifying a score and classifying its clamped value agree. */
  lemma ClassifyClamped(t: int)
    ensures Classify(t) == Classify(Clamp(t))
  {
  }

  /** A higher score never gives a lower tier. */
  lemma ClassifyMonotone(t1: int, t2: int)
    requires t1 <= t2
    ensures Rank(Classify(t1)) <= Rank(Classify(t2))
  {
    TiersDistinct();
  }

  /** The band edges are sharp: 9 and 10 fall in different tiers, and so do
      19 and 20. */
  lemma ClassifyEdges()
    ensures Classify(9).cat != Classify(10).cat
    ensures Classify(19).cat != Classify(20).cat
    ensures Classify(-5) == Classify(0) && Classify(35) == Classify(30)
  {
    TiersDistinct();
  }
}

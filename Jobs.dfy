/** A job posting as the corpus supplier hands it over (one CSV row: column name to
    text), and the attribute extractor that turns one posting and a detail type into
    the sentence the chatbot sends back. */
module Jobs {

  /** One posting: column name (`title`, `company`, `redirect_url`, ...) to its text. */
  type Job = map<string, string>

  /** `job.get(key, default)`: the default stands in only for an absent key. */
  function Get(job: Job, key: string, default: string): string {
    if key in job then job[key] else default
  }

  const LinkPrefix := "Here is the job link: "
  const SalaryPrefix := "The salary range is "
  const SkillsPrefix := "Job description/skills: "
  const ContractPrefix := "The contract time is "
  const ExperienceText := "Experience details are not available for this job."
  // Written in two pieces: the verifier does not index into a literal this long,
  // and `Detail` needs its first character.
  const UnknownDetail := "I'm sorry, " + "I didn't understand what detail you need."

  const NoLink := "No link available"
  const NoDescription := "No description available"
  const NotAvailable := "N/A"

  /** The detail types the extractor answers; any other yields UnknownDetail. */
  const DetailTypes: set<string> := {"link", "salary", "skills", "experience", "contract time"}

  /** The salary sentence around its three values. */
  function SalaryText(lo: string, hi: string, contractType: string): string {
    SalaryPrefix + lo + " - " + hi + " (" + contractType + ")."
  }

  /** The sentence for one detail of one posting (`get_detail_from_job`). */
  function Detail(job: Job, detailType: string): (r: string)
    ensures r == UnknownDetail <==> detailType !in DetailTypes
  {
    assert UnknownDetail[0] == 'I';
    if detailType == "link" then
      var r := LinkPrefix + Get(job, "redirect_url", NoLink) + ".";
      assert r[0] == 'H';
      r
    else if detailType == "salary" then
      var r := SalaryText(Get(job, "salary_min", NotAvailable), Get(job, "salary_max", NotAvailable),
                          Get(job, "contract_type", NotAvailable));
      assert r[0] == 'T';
      r
    else if detailType == "skills" then
      var r := SkillsPrefix + Get(job, "description", NoDescription) + ".";
      assert r[0] == 'J';
      r
    else if detailType == "experience" then
      ExperienceText
    else if detailType == "contract time" then
      var r := ContractPrefix + Get(job, "contract_time", NotAvailable) + ".";
      assert r[0] == 'T';
      r
    else
      UnknownDetail
  }

  /** The columns each detail type reads. */
  function KeysOf(detailType: string): set<string> {
    if detailType == "link" then {"redirect_url"}
    else if detailType == "salary" then {"salary_min", "salary_max", "contract_type"}
    else if detailType == "skills" then {"description"}
    else if detailType == "contract time" then {"contract_time"}
    else {}
  }

  /** The text printed in place of an absent column. */
  function DefaultOf(key: string): string {
    if key == "redirect_url" then NoLink
    else if key == "description" then NoDescription
    else NotAvailable
  }

  /** Two postings agree on `keys`: each key is present in both or in neither, with equal text. */
  predicate AgreeOn(j1: Job, j2: Job, keys: set<string>) {
    forall k :: k in keys ==> (k in j1 <==> k in j2) && (k in j1 ==> j1[k] == j2[k])
  }

  /** A detail depends on its own columns only; in particular "experience" and the
      unrecognised types read no column at all. */
  lemma DetailReadsOnlyItsKeys(j1: Job, j2: Job, detailType: string)
    requires AgreeOn(j1, j2, KeysOf(detailType))
    ensures Detail(j1, detailType) == Detail(j2, detailType)
    ensures KeysOf(detailType) == {} ==> Detail(j1, detailType) == Detail(map[], detailType)
  {
    if detailType == "link" {
      assert "redirect_url" in KeysOf(detailType);
    } else if detailType == "salary" {
      assert "salary_min" in KeysOf(detailType);
      assert "salary_max" in KeysOf(detailType);
      assert "contract_type" in KeysOf(detailType);
    } else if detailType == "skills" {
      assert "description" in KeysOf(detailType);
    } else if detailType == "contract time" {
      assert "contract_time" in KeysOf(detailType);
    }
  }

  lemma Cancel(a: string, x: string, y: string, b: string)
    ensures a + x + b == a + y + b <==> x == y
  {
    if a + x + b == a + y + b {
      assert |x| == |y|;
      assert x == (a + x + b)[|a|..|a| + |x|];
      assert y == (a + y + b)[|a|..|a| + |y|];
    }
  }

  /** Defaults come from `dict.get`: a present column is printed as it is, so the
      output equals the absent-column output exactly when the text equals the default.
      In particular an empty string is printed as empty, not replaced. */
  lemma DefaultOnlyWhenAbsent(job: Job, detailType: string, key: string)
    requires key in KeysOf(detailType) && key in job
    ensures Detail(job, detailType) == Detail(job - {key}, detailType) <==> job[key] == DefaultOf(key)
    ensures job[key] == "" ==> Detail(job, detailType) != Detail(job - {key}, detailType)
  {
    if detailType == "salary" {
      SalaryDefaultOnlyWhenAbsent(job, key);
    } else {
      SingleSlotDefaultOnlyWhenAbsent(job, detailType);
    }
  }

  lemma SingleSlotDefaultOnlyWhenAbsent(job: Job, detailType: string)
    requires detailType in {"link", "skills", "contract time"} && SlotKey(detailType) in job
    ensures var key := SlotKey(detailType);
      Detail(job, detailType) == Detail(job - {key}, detailType) <==> job[key] == DefaultOf(key)
  {
    var key := SlotKey(detailType);
    var gone := job - {key};
    assert Detail(job, detailType) == SlotPrefix(detailType) + job[key] + ".";
    assert Detail(gone, detailType) == SlotPrefix(detailType) + DefaultOf(key) + ".";
    Cancel(SlotPrefix(detailType), job[key], DefaultOf(key), ".");
  }

  /** Each value of the salary sentence can be told from the others' context: two
      sentences that differ in one value only are equal exactly when that value is. */
  lemma SalarySlots(lo: string, hi: string, ct: string, v: string)
    ensures SalaryText(lo, hi, ct) == SalaryText(v, hi, ct) <==> lo == v
    ensures SalaryText(lo, hi, ct) == SalaryText(lo, v, ct) <==> hi == v
    ensures SalaryText(lo, hi, ct) == SalaryText(lo, hi, v) <==> ct == v
  {
    var tail := " (" + ct + ").";
    assert SalaryText(lo, hi, ct) == SalaryPrefix + lo + (" - " + hi + tail);
    assert SalaryText(v, hi, ct) == SalaryPrefix + v + (" - " + hi + tail);
    Cancel(SalaryPrefix, lo, v, " - " + hi + tail);
    var head := SalaryPrefix + lo + " - ";
    assert SalaryText(lo, hi, ct) == head + hi + tail;
    assert SalaryText(lo, v, ct) == head + v + tail;
    Cancel(head, hi, v, tail);
    var front := SalaryPrefix + lo + " - " + hi + " (";
    assert SalaryText(lo, hi, ct) == front + ct + ").";
    assert SalaryText(lo, hi, v) == front + v + ").";
    Cancel(front, ct, v, ").");
  }

  lemma SalaryDefaultOnlyWhenAbsent(job: Job, key: string)
    requires key in KeysOf("salary") && key in job
    ensures Detail(job, "salary") == Detail(job - {key}, "salary") <==> job[key] == NotAvailable
  {
    SalarySlots(Get(job, "salary_min", NotAvailable), Get(job, "salary_max", NotAvailable),
                Get(job, "contract_type", NotAvailable), NotAvailable);
  }

  /** The text between a known prefix and suffix. */
  function Between(r: string, prefix: string, suffix: string): string
    requires |prefix| + |suffix| <= |r|
  {
    r[|prefix|..|r| - |suffix|]
  }

  /** The column a one-column detail type reads. */
  function SlotKey(detailType: string): string {
    if detailType == "link" then "redirect_url"
    else if detailType == "skills" then "description"
    else "contract_time"
  }

  /** The fixed text in front of that column in the sentence. */
  function SlotPrefix(detailType: string): string {
    if detailType == "link" then LinkPrefix
    else if detailType == "skills" then SkillsPrefix
    else ContractPrefix
  }

  /** The one-column details can be read back: cutting the template's fixed prefix and
      the final period off the sentence recovers `job.get(key, default)`. */
  lemma SingleSlotReadsBack(job: Job, detailType: string)
    requires detailType in {"link", "skills", "contract time"}
    ensures KeysOf(detailType) == {SlotKey(detailType)}
    ensures |SlotPrefix(detailType)| + 1 <= |Detail(job, detailType)|
    ensures Between(Detail(job, detailType), SlotPrefix(detailType), ".")
         == Get(job, SlotKey(detailType), DefaultOf(SlotKey(detailType)))
  {
    var prefix, key := SlotPrefix(detailType), SlotKey(detailType);
    var v := Get(job, key, DefaultOf(key));
    assert Detail(job, detailType) == prefix + v + ".";
    assert (prefix + v + ".")[|prefix|..|prefix| + |v|] == v;
  }
}

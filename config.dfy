/** The constant enumerations of config.js. Object literals keep their
    insertion order, so each is an ordered list of key/label pairs. */
module Config {

  type Choices = seq<(string, string)>

  const ROLES: Choices := [
    ("developer", "Software Developer"),
    ("designer", "UI/UX Designer"),
    ("manager", "Project Manager")
  ]

  const JOB_TYPES: Choices := [
    ("fulltime", "Full-time"),
    ("parttime", "Part-time"),
    ("contract", "Contract")
  ]

  const PRIORITIES: Choices := [
    ("low", "Low Priority"),
    ("medium", "Medium Priority"),
    ("high", "High Priority")
  ]

  /** `Object.keys(choices)`. */
  function Keys(choices: Choices): (r: seq<string>)
    ensures |r| == |choices|
    ensures forall i :: 0 <= i < |r| ==> r[i] == choices[i].0
  {
    if choices == [] then [] else [choices[0].0] + Keys(choices[1..])
  }

  /** `Object.values(choices)`. */
  function Labels(choices: Choices): (r: seq<string>)
    ensures |r| == |choices|
    ensures forall i :: 0 <= i < |r| ==> r[i] == choices[i].1
  {
    if choices == [] then [] else [choices[0].1] + Labels(choices[1..])
  }
}

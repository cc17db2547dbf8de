/**
 * The part of the metrics library the collectors touch: a descriptor
 * (fully-qualified name and variable label names), a constant counter sample,
 * and the channel a collector sends samples into.
 */
module Prometheus {
  datatype Desc = Desc(fqName: string, variableLabels: seq<string>)

  /** A counter's fully-qualified name: the given prefix, a measure, then "_total". */
  ghost predicate IsCounterName(name: string, prefix: string) {
    exists measure: string :: name == prefix + measure + "_total"
  }

  /** A sample built with MustNewConstMetric(desc, CounterValue, value, labelValues...). */
  datatype Metric = ConstCounter(desc: Desc, value: real, labelValues: seq<string>)

  /** The channel `ch` of Collect: every send appends one sample. */
  class Channel {
    var sent: seq<Metric>

    constructor ()
      ensures sent == []
    {
      sent := [];
    }

    method Send(m: Metric)
      modifies this
      ensures sent == old(sent) + [m]
    {
      sent := sent + [m];
    }
  }

  /** The samples on a channel do not depend on how its sends are grouped: a group
      of sends followed by later ones leaves what the whole run of sends leaves. */
  lemma SentInGroups(sent: seq<Metric>, group: seq<Metric>, later: seq<Metric>)
    ensures (sent + group) + later == sent + (group + later)
  {
  }
}

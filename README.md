# Micro-hydro power calculator, modelled in Dafny

The calculator takes four inputs from form widgets: a head H in metres, a flow
rate Q in m³/s, a turbine efficiency chosen on a whole-percent slider, and an
electricity price per kWh. From these it computes:

- the hydraulic power P = ρ·g·H·Q·η, with ρ = 1000 kg/m³ and g = 9.81 m/s²;
- that power in kW;
- the energy produced in a year of continuous operation, in Wh and in kWh;
- the money that energy would otherwise cost per year;
- a one-row report of the inputs and results, offered as a download.

`hydro.dfy` (module `Hydro`) models this arithmetic over exact reals. It has
one function per derived quantity and one function, `Hydro.Compute`, for the
whole calculation. `Compute` returns a `Calculation` record that holds every
figure and the `ReportRow`. The widget bounds are the preconditions of
`Compute`: head ≥ 1.0, flow ≥ 0.001, slider in 50..100 (divided by 100), and
price ≥ 0.01. The source does no validation of its own; it relies on the
widgets. So the model has no error result for out-of-range inputs. A
standalone "invalid input" rejection would be a design choice the code does
not make.

The lemmas prove:

- the closed form 9810·H·Q·η;
- strict monotonicity of power in head, flow and efficiency;
- the 4.905 W lower bound over the widget domain, and that it is reached;
- that 100% and 50% are the only maximising and minimising slider settings;
- the unit identities (kWh = 8.76·W = 8760·kW);
- that the annual figure W·24·365 is the energy of a year of continuous operation summed hour by hour, and an upper bound for any year whose hourly output stays at or below that power;
- linearity, additivity and strict monotonicity of the savings in the price;
- that the report row echoes the inputs, with the efficiency back as the slider's percent;
- the figures for the widgets' default inputs.

## Model

| member | source | states |
|---|---|---|
| `Hydro.CalculatePower` | hydro.py:4-10 | power equals exactly 9810·H·Q·η (ρ·g = 1000·9.81), and is positive when H, Q and η are |
| `Hydro.EfficiencyFraction` | hydro.py:18 | the slider percent divided by 100 gives back the percent when multiplied by 100, and lies in [0.5, 1] for slider values 50..100 |
| `Hydro.ToKilo` | hydro.py:27-31 | the kilo-unit figure (kW from W, kWh from Wh) times 1000 is the original figure |
| `Hydro.AnnualWattHours` | hydro.py:30 | the annual Wh figure is 8760 (24·365) times the power |
| `Hydro.AnnualSavings` | hydro.py:35 | savings divided by the price is the annual kWh; savings are positive for positive energy and price |
| `Hydro.Compute` | hydro.py:16-65 | on widget-bounded inputs: power is 9810·H·Q·(p/100) and at least 4.905 W; kW = W/1000; Wh = 8760·W; kWh = Wh/1000 = 8.76·W = 8760·kW; savings = kWh·price > 0; the report row is (H, Q, p, W, kWh, savings) |
| `Hydro.PowerStrictlyIncreasingInHead` | hydro.py:50 | more head gives strictly more power when flow and efficiency are positive |
| `Hydro.PowerStrictlyIncreasingInFlowRate` | hydro.py:51 | more flow gives strictly more power when head and efficiency are positive |
| `Hydro.PowerStrictlyIncreasingInEfficiency` | hydro.py:8-10 | higher efficiency gives strictly more power when head and flow are positive |
| `Hydro.PowerMonotone` | hydro.py:8-10 | power does not decrease when any of the three non-negative inputs grows |
| `Hydro.PowerAtLeastMinimum` | hydro.py:16-18 | within the widget bounds power is at least 4.905 W, and exactly 4.905 W at H = 1, Q = 0.001, 50% |
| `Hydro.PowerStrictlyIncreasingInSlider` | hydro.py:18 | a higher slider setting gives strictly more power |
| `Hydro.EfficiencyExtremes` | hydro.py:18 | over the slider range 50% gives the least power and 100% the most, and each extreme is reached only at that setting |
| `Hydro.SavingsLinearInPrice` | hydro.py:35 | k times the price gives k times the annual savings |
| `Hydro.SavingsAdditiveInPrice` | hydro.py:35 | savings at the sum of two prices are the sum of the savings at each |
| `Hydro.SavingsStrictlyIncreasingInPrice` | hydro.py:34-35 | a higher price gives strictly higher savings |
| `Hydro.SavingsAtLeastMinimum` | hydro.py:34-35 | within the widget bounds the savings are at least 4.905·8.76·0.01 |
| `Hydro.ComputeStrictlyIncreasingInHead` | hydro.py:21-35 | W, kW, kWh and savings all grow strictly with the head |
| `Hydro.ComputeStrictlyIncreasingInFlowRate` | hydro.py:21-35 | W, kW, kWh and savings all grow strictly with the flow rate |
| `Hydro.ReportRowEchoesInputs` | hydro.py:58-65 | the report's head and flow are the inputs, and its efficiency (η·100) equals the slider's whole percent |
| `Hydro.ConstantRunEnergy` | hydro.py:29-30 | energy summed hour by hour over n hours at constant power is n times that power |
| `Hydro.BoundedRunEnergy` | hydro.py:53 | a run whose hourly output never exceeds a power yields at most that power times its length |
| `Hydro.AnnualIsContinuousOperation` | hydro.py:29-30 | the annual Wh figure (W·24·365) equals the energy of running at that power in every one of the 8760 hours of a year |
| `Hydro.AnnualBoundsAnyYear` | hydro.py:53 | a year whose hourly output never exceeds the computed power yields no more than the annual figure, so the 24/7 figure is a ceiling |
| `Hydro.DefaultInputs` | hydro.py:16-35 | with the default inputs (10 m, 0.05 m³/s, 70%, 0.12) the figures are 3433.5 W, 3.4335 kW, 30077.46 kWh and 3609.2952 |
| `Hydro.SmallestInputs` | hydro.py:16-35 | at the smallest allowed inputs, power is 4.905 W and savings are 4.905·8.76·0.01 |

## Left out

- Streamlit widgets and text output (title, number inputs, slider, `write`, `subheader`). Only their bounds are modelled, as preconditions. There is no upper bound because the widgets set none.
- The matplotlib bar chart (hydro.py:39-45): it only renders figures.
- Building the pandas DataFrame, writing the CSV and the download button (hydro.py:67-75). These are library calls and a file download. The report is modelled as the record `ReportRow`.
- IEEE double rounding and the `:.2f` display formatting (hydro.py:24, 27, 31, 36). The model reasons over exact reals. So identities such as efficiency·100 = slider percent hold exactly in the model. In doubles they can be off in the last bit (57/100·100 is not exactly 57).
- The explanatory notes (hydro.py:48-54) hold no logic. The monotonicity they claim is proved in the lemmas above.
